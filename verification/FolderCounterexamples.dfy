/** Runs of the real steps that show which conditions of FolderRuns cannot be dropped. */
module FolderCounterexamples {
  import opened Prelude
  import opened FolderTable
  import opened FolderCascades
  import opened FolderService
  import opened FolderWorld
  import opened FolderCover
  import opened FolderTracks
  import opened FolderRuns

  function Row(parent: Option<Id>, path: seq<Id>, depth: int, name: string): Folder {
    Folder(parent, path, depth, false, name, 1, NotScheduled)
  }

  function Gone(f: Folder): Folder {
    f.(deleted := true, version := f.version + 1, purge := Scheduled)
  }

  /** Flipped by a worker rather than by a request: `purge` is left as it was. */
  function Flipped(f: Folder, to: bool): Folder {
    f.(deleted := to, version := f.version + 1)
  }

  lemma FetchNone(t: Table, b: set<Id>, d: bool)
    requires Children(t, b, d) == {}
    ensures Fetched(t, b, d, [])
  {
  }

  lemma FetchOne(t: Table, b: set<Id>, d: bool, c: Id)
    requires Children(t, b, d) == {c}
    ensures Fetched(t, b, d, [c])
  {
    assert Elems([c]) == {c};
  }

  lemma BatchOfOne(x: Id, kids: seq<Id>)
    ensures Batch([x]) == [x] && Rest([x]) == [] && BatchSet([x]) == {x} && Rest([x]) + kids == kids
  {
  }

  lemma Start(w: World)
    ensures Leads(w, w, AnyStep)
  {
    assert RunOf([w], w, w, AnyStep);
  }

  lemma Then(w: World, u: World, s: Step, v: World)
    requires Leads(w, u, AnyStep) && Takes(u, s, v, AnyStep)
    ensures Leads(w, v, AnyStep)
  {
    var ws :| RunOf(ws, w, u, AnyStep);
    OneMore(ws, w, u, s, v, AnyStep);
  }

  lemma ThenDelete(w0: World, w: World, id: Id, task: TaskId, v: World)
    requires Leads(w0, w, AnyStep) && Active(w.t, id) && task !in w.del
    requires v == w.(t := SoftDeleted(w.t, id), del := w.del[task := [id]])
    ensures Leads(w0, v, AnyStep)
  {
    Then(w0, w, Delete(id, task), v);
  }

  lemma ThenRestore(w0: World, w: World, id: Id, task: TaskId, v: World)
    requires Leads(w0, w, AnyStep) && RestoreVerdict(w.t, {}, id) == Accepted && task !in w.res
    requires v == w.(t := Restored(w.t, id), res := w.res[task := [id]])
    ensures Leads(w0, v, AnyStep)
  {
    Then(w0, w, Restore(id, task), v);
  }

  /** A delete batch of the single folder `x`. */
  lemma ThenDeleteBatch(w0: World, w: World, k: TaskId, x: Id, kids: seq<Id>, u: Table, v: World)
    requires Leads(w0, w, AnyStep) && k in w.del && w.del[k] == [x] && u == Flip(w.t, {x}, true)
    requires (kids == [] && Children(u, {x}, false) == {}) || (|kids| == 1 && Children(u, {x}, false) == {kids[0]})
    requires v == w.(t := u, del := w.del[k := kids])
    ensures Leads(w0, v, AnyStep)
  {
    BatchOfOne(x, kids);
    if kids == [] { FetchNone(u, {x}, false); } else { FetchOne(u, {x}, false, kids[0]); }
    assert kids == [] || kids == [kids[0]];
    Then(w0, w, DeleteBatch(k, kids), v);
  }

  lemma ThenRestoreBatch(w0: World, w: World, k: TaskId, x: Id, kids: seq<Id>, u: Table, v: World)
    requires Leads(w0, w, AnyStep) && k in w.res && w.res[k] == [x] && u == Flip(w.t, {x}, false)
    requires (kids == [] && Children(u, {x}, true) == {}) || (|kids| == 1 && Children(u, {x}, true) == {kids[0]})
    requires v == w.(t := u, res := w.res[k := kids])
    ensures Leads(w0, v, AnyStep)
  {
    BatchOfOne(x, kids);
    if kids == [] { FetchNone(u, {x}, true); } else { FetchOne(u, {x}, true, kids[0]); }
    assert kids == [] || kids == [kids[0]];
    Then(w0, w, RestoreBatch(k, kids), v);
  }

  lemma ThenMove(w0: World, w: World, id: Id, target: Option<Id>, u: Table, m: Moving, v: World)
    requires Leads(w0, w, AnyStep) && id in w.t && w.mv.None?
    requires MoveVerdict(w.t, {}, id, target, w.t[id].version, SubtreeHeight(w.t, id)) == Accepted
    requires u == Moved(w.t, id, target)
    requires m == Moving(id, w.t[id].path, NewPath(w.t, id, target), NewDepth(w.t, target) - w.t[id].depth, [id], {})
    requires v == w.(t := u, mv := Some(m))
    ensures Leads(w0, v, AnyStep)
  {
    MoveStep(w, id, target, u, m);
    Then(w0, w, Move(id, target), v);
  }

  lemma MoveStep(w: World, id: Id, target: Option<Id>, u: Table, m: Moving)
    requires id in w.t && w.mv.None? && (target.Some? ==> target.value in w.t)
    requires MoveVerdict(w.t, {}, id, target, w.t[id].version, SubtreeHeight(w.t, id)) == Accepted
    requires u == Moved(w.t, id, target)
    requires m == Moving(id, w.t[id].path, NewPath(w.t, id, target), NewDepth(w.t, target) - w.t[id].depth, [id], {})
    ensures Takes(w, Move(id, target), w.(t := u, mv := Some(m)), AnyStep)
  {
  }

  lemma ThenMoveDone(w0: World, w: World, v: World)
    requires Leads(w0, w, AnyStep) && w.mv.Some? && w.mv.value.todo == []
    requires v == w.(t := BumpIf(true, w.t, w.mv.value.source), mv := None)
    ensures Leads(w0, v, AnyStep)
  {
    Then(w0, w, MoveDone, v);
  }

  // ---------------------------------------------------------------- overlapping restore and delete

  /** Folder 0 holds 1, which holds 2. */
  function Top(): Folder { Row(None, [0], 0, "a") }
  function Middle(): Folder { Row(Some(0), [0, 1], 1, "b") }
  function Leaf(): Folder { Row(Some(1), [0, 1, 2], 2, "c") }

  function Line(a: Folder, b: Folder, c: Folder): Table { map[0 := a, 1 := b, 2 := c] }

  function LineWorld(): World { World(Line(Top(), Middle(), Leaf()), map[], map[], None) }

  /** 1 and 2 have been deleted. */
  function BothDeleted(): World {
    World(Line(Top(), Gone(Middle()), Flipped(Leaf(), true)), map[0 := []], map[], None)
  }

  lemma DeleteMiddle()
    ensures Leads(LineWorld(), BothDeleted(), AnyStep)
  {
    var w0, t1, t2 := LineWorld(), Line(Top(), Gone(Middle()), Leaf()), BothDeleted().t;
    var w1, w2 := World(t1, map[0 := [1]], map[], None), World(t1, map[0 := [2]], map[], None);
    Start(w0);
    ThenDelete(w0, w0, 1, 0, w1);
    ThenDeleteBatch(w0, w1, 0, 1, [2], t1, w2) by { assert Children(t1, {1}, false) == {2}; }
    ThenDeleteBatch(w0, w2, 0, 2, [], t2, BothDeleted()) by { assert Children(t2, {2}, false) == {}; }
  }

  function Back(): Folder { Middle().(version := 3) }

  /** 1 has been restored and its worker has 2 queued. */
  function HalfRestored(): World {
    World(Line(Top(), Back(), Flipped(Leaf(), true)), map[0 := []], map[0 := [2]], None)
  }

  lemma RestoreMiddle(w0: World)
    requires Leads(w0, BothDeleted(), AnyStep)
    ensures Leads(w0, HalfRestored(), AnyStep)
  {
    var t := HalfRestored().t;
    var w := World(t, map[0 := []], map[0 := [1]], None);
    ThenRestore(w0, BothDeleted(), 1, 0, w);
    ThenRestoreBatch(w0, w, 0, 1, [2], t, HalfRestored()) by { assert Children(t, {1}, true) == {2}; }
  }

  /** 0 has been deleted meanwhile, and its cascade has passed 2 by. */
  function PassedBy(): World {
    World(Line(Gone(Top()), Flipped(Back(), true), Flipped(Leaf(), true)), map[0 := [], 1 := []], map[0 := [2]], None)
  }

  function TopGone(): Table { Line(Gone(Top()), Back(), Flipped(Leaf(), true)) }

  /** 0 is deleted and queued. */
  function TopQueued(): World { World(TopGone(), map[0 := [], 1 := [0]], map[0 := [2]], None) }

  /** The batch of 0 has queued 1. */
  function MiddleQueued(): World { World(TopGone(), map[0 := [], 1 := [1]], map[0 := [2]], None) }

  lemma DeleteTop(w0: World)
    requires Leads(w0, HalfRestored(), AnyStep)
    ensures Leads(w0, PassedBy(), AnyStep)
  {
    ThenDelete(w0, HalfRestored(), 0, 1, TopQueued());
    QueueMiddle(w0);
    PassBy(w0);
  }

  lemma QueueMiddle(w0: World)
    requires Leads(w0, TopQueued(), AnyStep)
    ensures Leads(w0, MiddleQueued(), AnyStep)
  {
    var t, w := TopGone(), TopQueued();
    assert Children(t, {0}, false) == {1};
    assert Flip(t, {0}, true) == t;
    assert MiddleQueued().del == w.del[1 := [1]];
    ThenDeleteBatch(w0, w, 1, 0, [1], t, MiddleQueued());
  }

  lemma PassBy(w0: World)
    requires Leads(w0, MiddleQueued(), AnyStep)
    ensures Leads(w0, PassedBy(), AnyStep)
  {
    var t, w := PassedBy().t, MiddleQueued();
    assert Children(t, {1}, false) == {};
    assert Flip(w.t, {1}, true) == t;
    assert PassedBy().del == w.del[1 := []];
    ThenDeleteBatch(w0, w, 1, 1, [], t, PassedBy());
  }

  /** 2 has come back under the deleted 1. */
  function Orphaned(): World {
    World(Line(Gone(Top()), Flipped(Back(), true), Flipped(Flipped(Leaf(), true), false)),
          map[0 := [], 1 := []], map[0 := []], None)
  }

  lemma RestoreLeaf(w0: World)
    requires Leads(w0, PassedBy(), AnyStep)
    ensures Leads(w0, Orphaned(), AnyStep)
  {
    var t := Orphaned().t;
    ThenRestoreBatch(w0, PassedBy(), 0, 2, [], t, Orphaned()) by { assert Children(t, {2}, true) == {}; }
  }

  lemma LineIsFine()
    ensures WellFormed(LineWorld().t) && DeletedClosed(LineWorld().t)
  {
    assert [0] + [1] == [0, 1] && [0, 1] + [2] == [0, 1, 2];
  }

  /** From a well-formed tree a run of ordinary requests and workers ends with nothing pending
      and an active folder under a deleted one. */
  lemma OverlapBreaksClosure()
    ensures WellFormed(LineWorld().t) && DeletedClosed(LineWorld().t)
    ensures exists e :: Leads(LineWorld(), e, AnyStep) && NonePending(e.del) && NonePending(e.res) && !DeletedClosed(e.t)
  {
    LineIsFine();
    DeleteMiddle();
    RestoreMiddle(LineWorld());
    DeleteTop(LineWorld());
    RestoreLeaf(LineWorld());
    var e := Orphaned();
    assert Active(e.t, 2) && e.t[2].parent == Some(1) && e.t[1].deleted;
  }

  // ---------------------------------------------------------------- a stale path brought back by restore

  /** Folder 1 holds 2; folder 4 holds 5, which holds 3. */
  function Outer(): Folder { Row(None, [1], 0, "a") }
  function Inner(): Folder { Row(Some(1), [1, 2], 1, "b") }

  function Pair(a: Folder, b: Folder): Table {
    map[1 := a, 2 := b, 3 := Row(Some(5), [4, 5, 3], 2, "c"), 4 := Row(None, [4], 0, "d"), 5 := Row(Some(4), [4, 5], 1, "e")]
  }

  function PairWorld(): World { World(Pair(Outer(), Inner()), map[], map[], None) }

  /** Folder 1 as it stands under 3, after phase 1 (depth 3) and after its cascade (depth 6). */
  function Under3(depth: int, version: int): Folder {
    Folder(Some(3), [4, 5, 3, 1], depth, false, "a", version, NotScheduled)
  }

  /** 2 was deleted, 1 was moved under 3 (its cascade skipping 2), 2 was restored with the path it had before. */
  function StaleTable(): Table { Pair(Under3(6, 4), Inner().(version := 3)) }

  lemma MoveOuter(w0: World, w: World, v: World)
    requires Leads(w0, w, AnyStep) && w.t == Pair(Outer(), Gone(Inner())) && w.mv == None
    requires v == w.(t := Pair(Under3(3, 2), Gone(Inner())), mv := Some(Moving(1, [1], [4, 5, 3, 1], 3, [1], {})))
    ensures Leads(w0, v, AnyStep)
  {
    OuterMovable(w.t);
    OuterUnder3(w.t);
    ThenMove(w0, w, 1, Some(3), v.t, v.mv.value, v);
  }

  lemma OuterUnder3(t: Table)
    requires t == Pair(Outer(), Gone(Inner()))
    ensures NewPath(t, 1, Some(3)) == [4, 5, 3, 1] && NewDepth(t, Some(3)) == 3
    ensures Moved(t, 1, Some(3)) == Pair(Under3(3, 2), Gone(Inner()))
  {
    assert [4, 5, 3] + [1] == [4, 5, 3, 1];
  }

  lemma OuterMovable(t: Table)
    requires t == Pair(Outer(), Gone(Inner()))
    ensures MoveVerdict(t, {}, 1, Some(3), 1, SubtreeHeight(t, 1)) == Accepted
  {
    assert SubtreeHeight(t, 1) <= 2;
    assert !CheckCycle([4, 5, 3], [1]) by { assert [4, 5, 3][0] != [1][0]; }
  }

  lemma ShiftOuter(w0: World, w: World, v: World)
    requires Leads(w0, w, AnyStep)
    requires w.t == Pair(Under3(3, 2), Gone(Inner())) && w.mv == Some(Moving(1, [1], [4, 5, 3, 1], 3, [1], {}))
    requires v == w.(t := Pair(Under3(6, 3), Gone(Inner())), mv := Some(Moving(1, [1], [4, 5, 3, 1], 3, [], {1})))
    ensures Leads(w0, v, AnyStep)
  {
    BatchOfOne(1, []);
    OuterShifts(w.t, v.t);
    Then(w0, w, MoveBatch([]), v);
  }

  lemma OuterShifts(t: Table, u: Table)
    requires t == Pair(Under3(3, 2), Gone(Inner())) && u == Pair(Under3(6, 3), Gone(Inner()))
    ensures Shift(t, {1}, [1], [4, 5, 3, 1], 3) == u && DepthsFit(t, {1}, 3) && Fetched(t, {1}, false, [])
  {
    assert !([1] <= [4, 5, 3, 1]) by { assert [1][0] != [4, 5, 3, 1][0]; }
    assert Children(t, {1}, false) == {};
    FetchNone(t, {1}, false);
  }

  function StaleWorld(): World { World(StaleTable(), map[0 := []], map[0 := []], None) }

  function InnerDeleted(): World { World(Pair(Outer(), Gone(Inner())), map[0 := []], map[], None) }

  function OuterMoved(): World { World(Pair(Under3(6, 4), Gone(Inner())), map[0 := []], map[], None) }

  lemma DeleteInner()
    ensures Leads(PairWorld(), InnerDeleted(), AnyStep)
  {
    var t := InnerDeleted().t;
    var w := World(t, map[0 := [2]], map[], None);
    Start(PairWorld());
    ThenDelete(PairWorld(), PairWorld(), 2, 0, w);
    ThenDeleteBatch(PairWorld(), w, 0, 2, [], t, InnerDeleted()) by { assert Children(t, {2}, false) == {}; }
  }

  lemma MoveOuterWhole(w0: World)
    requires Leads(w0, InnerDeleted(), AnyStep)
    ensures Leads(w0, OuterMoved(), AnyStep)
  {
    var w1 := World(Pair(Under3(3, 2), Gone(Inner())), map[0 := []], map[], Some(Moving(1, [1], [4, 5, 3, 1], 3, [1], {})));
    var w2 := World(Pair(Under3(6, 3), Gone(Inner())), map[0 := []], map[], Some(Moving(1, [1], [4, 5, 3, 1], 3, [], {1})));
    MoveOuter(w0, InnerDeleted(), w1);
    ShiftOuter(w0, w1, w2);
    ThenMoveDone(w0, w2, OuterMoved());
  }

  lemma RestoreInner(w0: World)
    requires Leads(w0, OuterMoved(), AnyStep)
    ensures Leads(w0, StaleWorld(), AnyStep)
  {
    var t := StaleTable();
    var w := World(t, map[0 := []], map[0 := [2]], None);
    ThenRestore(w0, OuterMoved(), 2, 0, w);
    ThenRestoreBatch(w0, w, 0, 2, [], t, StaleWorld()) by { assert Children(t, {2}, true) == {}; }
  }

  /** The move that is under way can run through any number of batches. */
  ghost predicate Endless(w: World) {
    && w.mv.Some? && w.mv.value.todo == [w.mv.value.source]
    && forall n: nat :: Lasts(w.t, w.mv.value.source, w.mv.value.oldPrefix, w.mv.value.newPrefix, w.mv.value.delta, n)
  }

  /** The cycle check accepts moving 3 into its own subtree. */
  lemma StaleCycle(t: Table, u: Table)
    requires t == StaleTable() && u == t[3 := Folder(Some(2), [1, 2, 3], 2, false, "c", 2, NotScheduled)]
    ensures MoveVerdict(t, {}, 3, Some(2), 1, SubtreeHeight(t, 3)) == Accepted
    ensures Moved(t, 3, Some(2)) == u && NewPath(t, 3, Some(2)) == [1, 2, 3] && NewDepth(t, Some(2)) == 2
  {
    assert SubtreeHeight(t, 3) <= 4;
    assert !CheckCycle([1, 2], [4, 5, 3]) by { assert [1, 2][0] != [4, 5, 3][0]; }
    assert [1, 2] + [3] == [1, 2, 3];
  }

  lemma StaleIsCircled(u: Table)
    requires u == StaleTable()[3 := Folder(Some(2), [1, 2, 3], 2, false, "c", 2, NotScheduled)]
    ensures !Forest(u) && !Uncircled(u, 3, false)
  {
    assert Chain(u, 3, 3, false, 0) && Chain(u, 1, 3, false, 1) && Chain(u, 2, 3, false, 2) && Chain(u, 3, 3, false, 3);
    if Forest(u) { ForestIsUncircled(u, 3, false); }
  }

  lemma MoveIntoItself(w0: World, w: World, v: World)
    requires Leads(w0, w, AnyStep) && w.t == StaleTable() && w.mv == None
    requires v.t == StaleTable()[3 := Folder(Some(2), [1, 2, 3], 2, false, "c", 2, NotScheduled)]
    requires v == w.(t := v.t, mv := Some(Moving(3, [4, 5, 3], [1, 2, 3], 0, [3], {})))
    ensures Leads(w0, v, AnyStep) && !Forest(v.t) && Endless(v)
  {
    StaleCycle(w.t, v.t);
    ThenMove(w0, w, 3, Some(2), v.t, v.mv.value, v);
    StaleIsCircled(v.t);
    MoveNeverEndsIff(v.t, 3, [4, 5, 3], [1, 2, 3], 0);
  }

  lemma PairIsFine()
    ensures WellFormed(PairWorld().t) && DeletedClosed(PairWorld().t)
  {
    assert [1] + [2] == [1, 2] && [4] + [5] == [4, 5] && [4, 5] + [3] == [4, 5, 3];
  }

  /** From a well-formed tree, one operation at a time and every cascade drained before the next request, a move can close
      a cycle: the restored folder's path is stale and the cycle check trusts it. The cascade of that move can then run
      for ever, round and round the cycle. */
  lemma StaleRestoreMakesCycle()
    ensures WellFormed(PairWorld().t) && DeletedClosed(PairWorld().t)
    ensures exists e :: Leads(PairWorld(), e, AnyStep) && !Forest(e.t) && Endless(e)
  {
    PairIsFine();
    DeleteInner();
    MoveOuterWhole(PairWorld());
    RestoreInner(PairWorld());
    var t := StaleTable()[3 := Folder(Some(2), [1, 2, 3], 2, false, "c", 2, NotScheduled)];
    MoveIntoItself(PairWorld(), StaleWorld(),
                   World(t, StaleWorld().del, StaleWorld().res, Some(Moving(3, [4, 5, 3], [1, 2, 3], 0, [3], {}))));
  }

  // ---------------------------------------------------------------- a move beside a delete that has not started

  /** Folder 4 lies below 2, which lies below 1; folder 3 stands beside 1. */
  function Deepest(): Folder { Row(Some(2), [1, 2, 4], 2, "d") }
  function Other(): Folder { Row(None, [3], 0, "c") }

  /** Folder 1 as it stands under 3, after phase 1 (depth 1) and after its cascade (depth 2). */
  function BelowOther(depth: int, version: int): Folder {
    Folder(Some(3), [3, 1], depth, false, "a", version, NotScheduled)
  }

  function Quad(a: Folder, b: Folder): Table { map[1 := a, 2 := b, 3 := Other(), 4 := Deepest()] }

  function QuadWorld(): World { World(Quad(Outer(), Inner()), map[], map[], None) }

  /** 2 is deleted and its cascade waits; 4 is still active. */
  function Waiting(a: Folder, mv: Option<Moving>): World { World(Quad(a, Gone(Inner())), map[0 := [2]], map[], mv) }

  lemma QuadMovable(t: Table)
    requires t == Quad(Outer(), Gone(Inner()))
    ensures MoveVerdict(t, {}, 1, Some(3), 1, SubtreeHeight(t, 1)) == Accepted
    ensures NewPath(t, 1, Some(3)) == [3, 1] && NewDepth(t, Some(3)) == 1
    ensures Moved(t, 1, Some(3)) == Quad(BelowOther(1, 2), Gone(Inner()))
  {
    assert SubtreeHeight(t, 1) <= 2;
    assert !CheckCycle([3], [1]) by { assert [3][0] != [1][0]; }
    assert [3] + [1] == [3, 1];
  }

  lemma QuadShifts(t: Table)
    requires t == Quad(BelowOther(1, 2), Gone(Inner()))
    ensures Shift(t, {1}, [1], [3, 1], 1) == Quad(BelowOther(2, 3), Gone(Inner())) && DepthsFit(t, {1}, 1)
    ensures Fetched(t, {1}, false, [])
  {
    assert !([1] <= [3, 1]) by { assert [1][0] != [3, 1][0]; }
    assert Children(t, {1}, false) == {};
    FetchNone(t, {1}, false);
  }

  lemma QuadDeleted()
    ensures Leads(QuadWorld(), Waiting(Outer(), None), AnyStep)
  {
    Start(QuadWorld());
    ThenDelete(QuadWorld(), QuadWorld(), 2, 0, Waiting(Outer(), None));
  }

  lemma QuadMoveStarts(w: World)
    requires w == Waiting(BelowOther(1, 2), Some(Moving(1, [1], [3, 1], 1, [1], {})))
    ensures Leads(QuadWorld(), w, AnyStep)
  {
    var u := Waiting(Outer(), None);
    QuadDeleted();
    QuadMovable(u.t);
    ThenMove(QuadWorld(), u, 1, Some(3), w.t, w.mv.value, w);
  }

  lemma QuadBatch(w: World, v: World)
    requires Leads(QuadWorld(), w, AnyStep) && w == Waiting(BelowOther(1, 2), Some(Moving(1, [1], [3, 1], 1, [1], {})))
    requires v == Waiting(BelowOther(2, 3), Some(Moving(1, [1], [3, 1], 1, [], {1})))
    ensures Leads(QuadWorld(), v, AnyStep)
  {
    BatchOfOne(1, []);
    QuadShifts(w.t);
    Then(QuadWorld(), w, MoveBatch([]), v);
  }

  lemma QuadMoved()
    ensures Leads(QuadWorld(), Waiting(BelowOther(2, 4), None), AnyStep)
  {
    var w2 := Waiting(BelowOther(1, 2), Some(Moving(1, [1], [3, 1], 1, [1], {})));
    var w3 := Waiting(BelowOther(2, 3), Some(Moving(1, [1], [3, 1], 1, [], {1})));
    QuadMoveStarts(w2);
    QuadBatch(w2, w3);
    ThenMoveDone(QuadWorld(), w3, Waiting(BelowOther(2, 4), None));
  }

  /** 4 still stores `[1, 2, 4]` though 1 now lies under 3: moving 3 under 4 is accepted. */
  lemma QuadCycle(t: Table)
    requires t == Quad(BelowOther(2, 4), Gone(Inner()))
    ensures MoveVerdict(t, {}, 3, Some(4), 1, SubtreeHeight(t, 3)) == Accepted
    ensures !Forest(Moved(t, 3, Some(4)))
  {
    assert SubtreeHeight(t, 3) <= 2;
    assert !CheckCycle([1, 2, 4], [3]) by { assert [1, 2, 4][0] != [3][0]; }
    var u := Moved(t, 3, Some(4));
    assert Hops(u, 3, 3, 0) && Hops(u, 1, 3, 1) && Hops(u, 2, 3, 2) && Hops(u, 4, 3, 3) && Hops(u, 3, 3, 4);
    if Forest(u) { NoCycle(u, 3, 4); }
  }

  lemma QuadIsFine()
    ensures WellFormed(QuadWorld().t) && DeletedClosed(QuadWorld().t)
  {
    assert [1] + [2] == [1, 2] && [1, 2] + [4] == [1, 2, 4];
  }

  /** No restore is needed, and every move cascade is drained before the next move: a delete whose cascade has not
      started hides a subtree from a move cascade, and the next move closes a cycle. */
  lemma PendingDeleteMakesCycle()
    ensures WellFormed(QuadWorld().t) && DeletedClosed(QuadWorld().t)
    ensures exists e :: Leads(QuadWorld(), e, AnyStep) && e.res == map[] && !Forest(e.t)
  {
    QuadIsFine();
    QuadMoved();
    var w := Waiting(BelowOther(2, 4), None);
    QuadCycle(w.t);
    var u := Moved(w.t, 3, Some(4));
    var m := Moving(3, w.t[3].path, NewPath(w.t, 3, Some(4)), NewDepth(w.t, Some(4)) - w.t[3].depth, [3], {});
    ThenMove(QuadWorld(), w, 3, Some(4), u, m, w.(t := u, mv := Some(m)));
  }
}
