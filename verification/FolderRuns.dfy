/** Whole runs: which steps may follow each other, and what holds of the tree whatever the order. */
module FolderRuns {
  import opened Prelude
  import opened FolderTable
  import opened FolderCascades
  import opened FolderService
  import opened FolderEffects
  import opened FolderMoves
  import opened FolderWorld
  import opened FolderCover
  import opened FolderTracks

  // ---------------------------------------------------------------- whole runs

  /** The conditions under which a step is known to keep the tree in order. */
  ghost predicate Careful(w: World, s: Step)
    requires Enabled(w, s)
  {
    && !DeleteCut(w, s) && !MoveCut(w, s)
    && (s.RestoreBatch? ==> RestoreGuard(w, BatchSet(w.res[s.task])))
    && (s.Restore? || s.RestoreBatch? ==> NotStale(w.t, w.mv, Reactivated(w, s)))
    && (s.Move? ==> SafeMove(w.t, s.id, s.target))
  }

  /** Moves take wholly active subtrees and start with no delete pending; deletes start with no move pending. */
  ghost predicate Orderly(w: World, s: Step) {
    && (s.Move? ==> NonePending(w.del) && forall x :: x in w.t && Below(w.t, x, s.id) ==> Active(w.t, x))
    && (s.Delete? ==> w.mv.None?)
  }

  /** A move keeps the stored depth of its folder. */
  ghost predicate Level(w: World, s: Step)
    requires Enabled(w, s)
  {
    s.Move? ==> NewDepth(w.t, s.target) == w.t[s.id].depth
  }

  /** Which steps a run may take. */
  datatype Rule =
    | AnyStep | CarefulSteps | GuardedSteps | TakingTurns | DeletesAndCreates | OrderlyMoves | OrderlyTurns | LevelMoves

  ghost predicate Obeys(w: World, s: Step, rule: Rule)
    requires Enabled(w, s)
  {
    match rule
    case AnyStep => true
    case CarefulSteps => Careful(w, s)
    case GuardedSteps => !DeleteCut(w, s) && (s.RestoreBatch? ==> RestoreGuard(w, BatchSet(w.res[s.task])))
    case TakingTurns => !DeleteCut(w, s) && InTurn(w, s)
    case DeletesAndCreates => !DeleteCut(w, s) && (s.Create? || s.Delete? || s.DeleteBatch?)
    case OrderlyMoves => !MoveCut(w, s) && Orderly(w, s)
    case LevelMoves => !MoveCut(w, s) && Orderly(w, s) && Level(w, s)
    case OrderlyTurns => !DeleteCut(w, s) && !MoveCut(w, s) && InTurn(w, s) && Orderly(w, s)
  }

  ghost predicate Takes(w: World, s: Step, v: World, rule: Rule) {
    Enabled(w, s) && Apply(w, s) == v && Obeys(w, s, rule)
  }

  ghost predicate OneStep(w: World, v: World, rule: Rule) {
    exists s :: Takes(w, s, v, rule)
  }

  /** A run: `ws` starts in `w`, ends in `e`, and every next world is one allowed step on. */
  ghost predicate RunOf(ws: seq<World>, w: World, e: World, rule: Rule) {
    && ws != [] && ws[0] == w && ws[|ws| - 1] == e
    && forall i {:trigger StepAt(ws, i, rule)} :: 0 < i < |ws| ==> StepAt(ws, i, rule)
  }

  ghost predicate StepAt(ws: seq<World>, i: int, rule: Rule)
    requires 0 < i < |ws|
  {
    OneStep(ws[i - 1], ws[i], rule)
  }

  /** A run is the run before its last step, and that step. */
  lemma LastStep(ws: seq<World>, w: World, e: World, rule: Rule) returns (s: Step)
    requires RunOf(ws, w, e, rule) && |ws| > 1
    ensures RunOf(ws[..|ws| - 1], w, ws[|ws| - 2], rule) && Takes(ws[|ws| - 2], s, e, rule)
  {
    var init := ws[..|ws| - 1];
    forall i | 0 < i < |init| ensures StepAt(init, i, rule) { assert StepAt(ws, i, rule); }
    assert StepAt(ws, |ws| - 1, rule);
    s :| Takes(ws[|ws| - 2], s, e, rule);
  }

  lemma OneMore(ws: seq<World>, w: World, u: World, s: Step, e: World, rule: Rule)
    requires RunOf(ws, w, u, rule) && Takes(u, s, e, rule)
    ensures RunOf(ws + [e], w, e, rule)
  {
    var longer := ws + [e];
    forall i | 0 < i < |longer| ensures StepAt(longer, i, rule) {
      if i < |ws| { assert StepAt(ws, i, rule); } else { assert OneStep(u, e, rule); }
    }
  }

  /** Some run leads from `w` to `e`. */
  ghost predicate Leads(w: World, e: World, rule: Rule) {
    exists ws :: RunOf(ws, w, e, rule)
  }

  /** A run under one rule is a run under every rule that allows the same steps. */
  lemma WeakerRule(w: World, e: World, strict: Rule, loose: Rule)
    requires Leads(w, e, strict)
    requires forall u, s, v :: Takes(u, s, v, strict) ==> Takes(u, s, v, loose)
    ensures Leads(w, e, loose)
  {
    var ws :| RunOf(ws, w, e, strict);
    forall i | 0 < i < |ws| ensures StepAt(ws, i, loose) {
      assert StepAt(ws, i, strict);
      var s :| Takes(ws[i - 1], s, ws[i], strict);
      assert Takes(ws[i - 1], s, ws[i], loose);
    }
    assert RunOf(ws, w, e, loose);
  }

  ghost predicate InOrder(w: World) {
    Forest(w.t) && Cover(w) && OnTrack(w)
  }

  lemma ForestStep(w: World, s: Step)
    requires InOrder(w) && Enabled(w, s) && Careful(w, s)
    ensures Forest(Apply(w, s).t)
  {
    match s
    case Create(id, parent, name) => LeafKeepsForest(w.t, Apply(w, s).t, id, parent);
    case Move(id, target) => OnTrackMove(w, id, target);
    case _ =>
      LinksKept(w, s);
      ForestSameLinks(w.t, Apply(w, s).t);
  }

  /** Only creates and moves touch the parent links. */
  lemma LinksKept(w: World, s: Step)
    requires Enabled(w, s) && !s.Create? && !s.Move?
    ensures SameLinks(w.t, Apply(w, s).t)
  {
  }

  lemma OnTrackStep(w: World, s: Step)
    requires InOrder(w) && Enabled(w, s) && Careful(w, s)
    ensures OnTrack(Apply(w, s))
  {
    match s
    case Create(id, parent, name) => OnTrackCreate(w, id, parent, name);
    case Delete(id, task) => OnTrackFewer(w, Apply(w, s));
    case DeleteBatch(task, kids) => OnTrackFewer(w, Apply(w, s));
    case Move(id, target) => OnTrackMove(w, id, target);
    case MoveBatch(kids) => OnTrackMoveBatch(w, kids);
    case MoveDone => OnTrackMoveDone(w);
    case _ => RestoreOnTrackIff(w, s);
  }

  lemma InOrderStep(w: World, s: Step)
    requires InOrder(w) && Enabled(w, s) && Careful(w, s)
    ensures InOrder(Apply(w, s))
  {
    ForestHasKeys(w.t);
    CoverStep(w, s);
    ForestStep(w, s);
    OnTrackStep(w, s);
  }

  lemma {:induction false} InOrderRun(ws: seq<World>, w: World, e: World)
    requires InOrder(w) && RunOf(ws, w, e, CarefulSteps)
    ensures InOrder(e)
    decreases |ws|
  {
    if |ws| > 1 {
      var u := ws[|ws| - 2];
      var s := LastStep(ws, w, e, CarefulSteps);
      InOrderRun(ws[..|ws| - 1], w, u);
      InOrderStep(u, s);
    }
  }

  lemma PathsAreTrue(t: Table)
    requires Forest(t) && ActivePaths(t) && DeletedClosed(t)
    ensures forall x :: Active(t, x) ==> StoresTruePath(t, x)
  {
    forall x: Id | Active(t, x) ensures StoresTruePath(t, x) {
      ActivePathIsTrue(t, x);
      assert EndsWithPath(t, x, |t[x].path| - 1);
    }
  }

  lemma CheckIsExact(t: Table)
    requires Forest(t) && ActivePaths(t) && DeletedClosed(t)
    ensures forall x, y :: Active(t, x) && Active(t, y) ==> (CheckCycle(t[x].path, t[y].path) <==> Below(t, x, y))
  {
    forall x: Id, y: Id | Active(t, x) && Active(t, y) ensures CheckCycle(t[x].path, t[y].path) <==> Below(t, x, y) {
      CheckCycleExact(t, x, y);
    }
  }

  /** Main result. After any careful run of interleaved requests and workers, once no delete and no move is
      pending: no active folder hangs under a deleted one, the parent graph is a forest, every active folder
      stores the path its parent links spell out, and the cycle check is exact. The next move finds what the lemmas on
      moves ask of it. */
  lemma QuiescentTree(w: World, e: World)
    requires InOrder(w) && Leads(w, e, CarefulSteps)
    requires NonePending(e.del) && e.mv.None?
    ensures DeletedClosed(e.t) && Forest(e.t) && ActivePaths(e.t)
    ensures forall x :: Active(e.t, x) ==> StoresTruePath(e.t, x)
    ensures forall x, y :: Active(e.t, x) && Active(e.t, y) ==>
              (CheckCycle(e.t[x].path, e.t[y].path) <==> Below(e.t, x, y))
  {
    var ws :| RunOf(ws, w, e, CarefulSteps);
    InOrderRun(ws, w, e);
    QuietPaths(e);
    PathsAreTrue(e.t);
    CheckIsExact(e.t);
  }

  /** At every moment of a careful run the parent graph is a forest, whatever is pending. */
  lemma AlwaysForest(w: World, e: World)
    requires InOrder(w) && Leads(w, e, CarefulSteps)
    ensures Forest(e.t)
  {
    var ws :| RunOf(ws, w, e, CarefulSteps);
    InOrderRun(ws, w, e);
  }

  /** A quiescent table is a good place to start from, with stale paths on its deleted rows or without; the empty
      workspace is one. */
  lemma QuiescentInOrder(t: Table)
    requires Forest(t) && ActivePaths(t) && forall x :: x in t ==> t[x].path != []
    ensures InOrder(World(t, map[], map[], None))
  {
    var w := World(t, map[], map[], None);
    assert DeletedClosed(t) by {
      forall x: Id | Active(t, x) ensures ActiveLink(t, x) {}
    }
    forall x: Id | Visible(t, x) ensures PathOnTrack(t, None, x) {
      assert ActiveLink(t, x);
      assert [] + [x] == [x];
    }
  }

  // ---------------------------------------------------------------- deletion alone

  lemma {:induction false} GuardedRun(ws: seq<World>, w: World, e: World)
    requires ForeignKey(w.t) && Cover(w) && RunOf(ws, w, e, GuardedSteps)
    ensures ForeignKey(e.t) && Cover(e)
    decreases |ws|
  {
    if |ws| > 1 {
      var u := ws[|ws| - 2];
      var s := LastStep(ws, w, e, GuardedSteps);
      GuardedRun(ws[..|ws| - 1], w, u);
      CoverStep(u, s);
      KeysStep(u, s);
    }
  }

  /** Every folder under a deleted one is deleted once the delete worklists are empty, folders created while the cascades
      ran included, whatever moves ran beside them. */
  lemma NothingSurvivesBelow(w: World, e: World, root: Id, x: Id)
    requires ForeignKey(w.t) && Cover(w) && Leads(w, e, GuardedSteps) && NonePending(e.del)
    requires root in e.t && e.t[root].deleted && x in e.t && Below(e.t, x, root)
    ensures e.t[x].deleted
  {
    var ws :| RunOf(ws, w, e, GuardedSteps);
    GuardedRun(ws, w, e);
    QuietIsClosed(e);
    var n: nat :| Hops(e.t, x, root, n);
    DeletedDown(e.t, root, x, n);
  }

  lemma ClosedIsCovered(w: World)
    requires DeletedClosed(w.t)
    ensures Cover(w)
  {
    forall x: Id ensures !Orphan(w.t, x) { assert UnderDeleted(w.t, x) ==> !Active(w.t, x); }
  }

  /** Any number of delete cascades, interleaved with each other and with creates in any way: from a quiescent tree, when
      all worklists have emptied, every folder under a deleted one is deleted. */
  lemma DeletesSettle(t: Table, e: World, root: Id, x: Id)
    requires ForeignKey(t) && DeletedClosed(t)
    requires Leads(World(t, map[], map[], None), e, DeletesAndCreates) && NonePending(e.del)
    requires root in e.t && e.t[root].deleted && x in e.t && Below(e.t, x, root)
    ensures e.t[x].deleted
  {
    var w := World(t, map[], map[], None);
    ClosedIsCovered(w);
    WeakerRule(w, e, DeletesAndCreates, GuardedSteps);
    NothingSurvivesBelow(w, e, root, x);
  }

  // ---------------------------------------------------------------- runs in which deletes and restores take turns

  lemma {:induction false} TurnRun(ws: seq<World>, w: World, e: World)
    requires ForeignKey(w.t) && Cover(w) && TurnInv(w) && RunOf(ws, w, e, TakingTurns)
    ensures ForeignKey(e.t) && Cover(e) && TurnInv(e)
    decreases |ws|
  {
    if |ws| > 1 {
      var u := ws[|ws| - 2];
      var s := LastStep(ws, w, e, TakingTurns);
      TurnRun(ws[..|ws| - 1], w, u);
      TurnStep(u, s);
      CoverStep(u, s);
      KeysStep(u, s);
    }
  }

  /** If deletes and restores take turns, the deleted set is closed under children whenever no delete is pending:
      taking turns makes the guard on restore batches hold by itself. */
  lemma TurnRunClosed(w: World, e: World)
    requires ForeignKey(w.t) && DeletedClosed(w.t) && w.del == map[] && w.res == map[]
    requires Leads(w, e, TakingTurns) && NonePending(e.del)
    ensures DeletedClosed(e.t)
  {
    ClosedIsCovered(w);
    var ws :| RunOf(ws, w, e, TakingTurns);
    TurnRun(ws, w, e);
    QuietIsClosed(e);
  }

  // ---------------------------------------------------------------- runs with orderly moves

  /** Every row, deleted ones included, has a path that is right or that the running cascade will put right; the subtree
      being moved is wholly active and no delete is pending. */
  ghost predicate AllOnTrack(w: World) {
    && Forest(w.t)
    && (forall x {:trigger PathOnTrack(w.t, w.mv, x)} :: Linked(w.t, x) ==> PathOnTrack(w.t, w.mv, x))
    && (forall x :: x in w.t ==> w.t[x].path != [])
    && (w.mv.Some? ==> MovingInv(w.t, w.mv.value) && NonePending(w.del) && WhollyActive(w.t, w.mv.value.source))
  }

  ghost predicate WhollyActive(t: Table, f: Id) {
    forall x :: x in t && Below(t, x, f) ==> Active(t, x)
  }

  /** Between moves all stored paths agree with the links. */
  lemma SettledPaths(w: World)
    requires AllOnTrack(w) && w.mv.None?
    ensures PathsAgree(w.t)
  {
    forall x: Id | x in w.t ensures PathLink(w.t, x) {
      if w.t[x].parent.Some? { ParentInTable(w.t, x); }
      assert PathOnTrack(w.t, w.mv, x);
      assert [] + [x] == [x];
    }
  }

  /** The table as if nothing were deleted: the paths and links are the same. */
  function Undeleted(t: Table): Table {
    map x | x in t :: t[x].(deleted := false)
  }

  lemma UndeletedPaths(t: Table)
    requires PathsAgree(t)
    ensures ActivePaths(Undeleted(t)) && SameLinks(t, Undeleted(t))
  {
    forall x: Id | Active(Undeleted(t), x) ensures ActiveLink(Undeleted(t), x) {
      assert PathLink(t, x);
    }
  }

  /** With agreeing paths the cycle check is exact for deleted rows too. */
  lemma CheckExactForAll(t: Table, target: Id, source: Id)
    requires PathsAgree(t) && target in t && source in t
    ensures CheckCycle(t[target].path, t[source].path) <==> Below(t, target, source)
  {
    var u := Undeleted(t);
    UndeletedPaths(t);
    CheckCycleExact(u, target, source);
    if Below(t, target, source) { BelowSameLinks(t, u, target, source); }
    if Below(u, target, source) { BelowSameLinks(u, t, target, source); }
  }

  lemma OrderlyMoveIsGood(w: World, id: Id, target: Option<Id>)
    requires Forest(w.t) && PathsAgree(w.t) && Enabled(w, Move(id, target))
    ensures target.Some? ==> !Below(w.t, target.value, id)
    ensures PrefixShape(w.t[id].path, NewPath(w.t, id, target), id)
  {
    var u := Undeleted(w.t);
    UndeletedPaths(w.t);
    if target.Some? {
      CheckExactForAll(w.t, target.value, id);
      WellFormedPath(w.t, target.value);
      if Below(u, target.value, id) { BelowSameLinks(u, w.t, target.value, id); }
    }
    MovePrefixShape(u, id, target);
    assert NewPath(u, id, target) == NewPath(w.t, id, target);
  }

  lemma OrderlyMoveStarts(w: World, id: Id, target: Option<Id>)
    requires AllOnTrack(w) && Enabled(w, Move(id, target)) && Orderly(w, Move(id, target))
    ensures AllOnTrack(Apply(w, Move(id, target)))
  {
    var w' := Apply(w, Move(id, target));
    SettledPaths(w);
    OrderlyMoveIsGood(w, id, target);
    MoveForestIff(w, id, target);
    MovingStarts(w'.t, w'.mv.value);
    MovedSubtreeSame(w.t, id, target, w'.t);
    NotOwnTarget(w.t, id, target);
    forall x: Id | Linked(w'.t, x) ensures PathOnTrack(w'.t, w'.mv, x) {
      assert x != id ==> Linked(w.t, x) && PathOnTrack(w.t, w.mv, x);
      MoveLinkOf(w.t, id, target, w'.t, w'.mv.value, x);
    }
  }

  /** Relinking a folder leaves its own subtree as it was. */
  lemma MovedSubtreeSame(t: Table, id: Id, target: Option<Id>, t': Table)
    requires Forest(t) && id in t && (target.Some? ==> target.value in t) && t' == Moved(t, id, target) && Forest(t')
    requires WhollyActive(t, id)
    ensures WhollyActive(t', id)
  {
    forall x: Id | x in t' && Below(t', x, id) ensures Active(t', x) {
      var n: nat :| Hops(t', x, id, n);
      HopsRelinked(t', t, id, t[id].parent, x, n);
      assert Below(t, x, id);
    }
  }

  /** Deletes, restores and their batches change no path and no link. */
  lemma OrderlyFlip(w: World, s: Step)
    requires AllOnTrack(w) && Enabled(w, s) && Orderly(w, s)
    requires s.Delete? || s.DeleteBatch? || s.Restore? || s.RestoreBatch?
    ensures AllOnTrack(Apply(w, s))
  {
    var w' := Apply(w, s);
    LinksKept(w, s);
    ForestSameLinks(w.t, w'.t);
    forall x: Id | Linked(w'.t, x) ensures PathOnTrack(w'.t, w'.mv, x) {
      FlipKeepsTrack(w.t, w.mv, w'.t, x);
      assert PathOnTrack(w.t, w.mv, x);
    }
    if w.mv.Some? {
      assert s.Restore? || s.RestoreBatch?;
      MovingSameLinks(w.t, w.mv.value, w'.t);
      forall x: Id | x in w'.t && Below(w'.t, x, w.mv.value.source) ensures Active(w'.t, x) {
        BelowSameLinks(w'.t, w.t, x, w.mv.value.source);
      }
    }
  }

  lemma OrderlyCreate(w: World, id: Id, parent: Option<Id>, name: string)
    requires AllOnTrack(w) && Enabled(w, Create(id, parent, name))
    ensures AllOnTrack(Apply(w, Create(id, parent, name)))
  {
    var w' := Apply(w, Create(id, parent, name));
    LeafKeepsForest(w.t, w'.t, id, parent);
    ForestHasKeys(w.t);
    if w.mv.Some? {
      MovingAcrossCreate(w.t, w.mv.value, id, parent, name, w'.t);
      forall x: Id | x in w'.t && Below(w'.t, x, w.mv.value.source) ensures Active(w'.t, x) {
        if x != id {
          var n: nat :| Hops(w'.t, x, w.mv.value.source, n);
          HopsOld(w.t, w'.t, x, w.mv.value.source, n);
        }
      }
    }
    forall x: Id | Linked(w'.t, x) ensures PathOnTrack(w'.t, w'.mv, x) {
      if x != id {
        if w.t[x].parent.Some? { ParentInTable(w.t, x); }
        assert PathOnTrack(w.t, w.mv, x);
      }
      PathAcrossCreate(w.t, w.mv, id, parent, name, w'.t, x);
    }
  }

  lemma {:induction false} HopsOld(t: Table, u: Table, x: Id, r: Id, n: nat)
    requires ForeignKey(t) && t.Keys <= u.Keys && forall z :: z in t ==> u[z].parent == t[z].parent
    requires x in t && Hops(u, x, r, n)
    ensures Hops(t, x, r, n)
    decreases n
  {
    if n > 0 { HopsOld(t, u, t[x].parent.value, r, n - 1); }
  }

  lemma OrderlyMoveBatch(w: World, kids: seq<Id>)
    requires AllOnTrack(w) && Enabled(w, MoveBatch(kids)) && !MoveCut(w, MoveBatch(kids))
    ensures AllOnTrack(Apply(w, MoveBatch(kids)))
  {
    var w' := Apply(w, MoveBatch(kids));
    var m, m' := w.mv.value, w'.mv.value;
    FetchedAll(w.t, BatchSet(m.todo), false, kids);
    MovingStep(w.t, m, kids, w'.t, m');
    ForestSameLinks(w.t, w'.t);
    SplitTodo(m.todo);
    forall x: Id | Linked(w'.t, x) ensures PathOnTrack(w'.t, w'.mv, x) {
      assert Linked(w.t, x) && PathOnTrack(w.t, w.mv, x);
      if w.t[x].parent.Some? && w.t[x].parent.value in BatchSet(m.todo) { ChildIsBelow(w.t, m, x); }
      PathAcrossBatch(w.t, m, kids, w'.t, m', x);
    }
    forall x: Id | x in w'.t && Below(w'.t, x, m.source) ensures Active(w'.t, x) {
      BelowSameLinks(w'.t, w.t, x, m.source);
    }
  }

  lemma ChildIsBelow(t: Table, m: Moving, x: Id)
    requires MovingInv(t, m) && x in t && t[x].parent.Some? && t[x].parent.value in Elems(m.todo)
    ensures Below(t, x, m.source)
  {
    var p := t[x].parent.value;
    assert MovingRow(t, m, p);
    var n: nat :| Hops(t, p, m.source, n);
    assert Hops(t, x, m.source, n + 1);
  }

  lemma OrderlyMoveDone(w: World)
    requires AllOnTrack(w) && Enabled(w, MoveDone)
    ensures AllOnTrack(Apply(w, MoveDone))
  {
    var w' := Apply(w, MoveDone);
    ForestSameLinks(w.t, w'.t);
    forall x: Id | Linked(w'.t, x) ensures PathOnTrack(w'.t, w'.mv, x) {
      assert Linked(w.t, x) && PathOnTrack(w.t, w.mv, x);
    }
  }

  lemma OrderlyStep(w: World, s: Step)
    requires AllOnTrack(w) && Enabled(w, s) && Orderly(w, s) && !MoveCut(w, s)
    ensures AllOnTrack(Apply(w, s))
  {
    match s
    case Create(id, parent, name) => OrderlyCreate(w, id, parent, name);
    case Move(id, target) => OrderlyMoveStarts(w, id, target);
    case MoveBatch(kids) => OrderlyMoveBatch(w, kids);
    case MoveDone => OrderlyMoveDone(w);
    case _ => OrderlyFlip(w, s);
  }

  lemma {:induction false} OrderlyRun(ws: seq<World>, w: World, e: World)
    requires AllOnTrack(w) && RunOf(ws, w, e, OrderlyMoves)
    ensures AllOnTrack(e)
    decreases |ws|
  {
    if |ws| > 1 {
      var u := ws[|ws| - 2];
      var s := LastStep(ws, w, e, OrderlyMoves);
      OrderlyRun(ws[..|ws| - 1], w, u);
      OrderlyStep(u, s);
    }
  }

  lemma AgreeIsTracked(t: Table)
    requires PathsAgree(t)
    ensures AllOnTrack(World(t, map[], map[], None))
  {
    AgreeIsForest(t);
    forall x: Id | Linked(t, x) ensures PathOnTrack(t, None, x) {
      assert PathLink(t, x);
      assert [] + [x] == [x];
    }
    forall x | x in t ensures t[x].path != [] { assert PathLink(t, x); }
  }

  /** If moves are orderly, nothing goes stale, however deletes, restores and creates interleave: the graph is always a
      forest, and between moves every row, deleted ones included, stores the path its links spell out. */
  lemma OrderlyPathsAgree(t: Table, e: World)
    requires PathsAgree(t) && Leads(World(t, map[], map[], None), e, OrderlyMoves)
    ensures Forest(e.t) && (e.mv.None? ==> PathsAgree(e.t))
  {
    var w := World(t, map[], map[], None);
    AgreeIsTracked(t);
    var ws :| RunOf(ws, w, e, OrderlyMoves);
    OrderlyRun(ws, w, e);
    if e.mv.None? { SettledPaths(e); }
  }

  /** If deletes and restores take turns and moves are orderly: once nothing is pending, the deleted set is closed under
      children and every row stores its true path, so the cycle check is exact for all of them. */
  lemma OrderlyTurnsSettle(t: Table, e: World)
    requires PathsAgree(t) && DeletedClosed(t) && Leads(World(t, map[], map[], None), e, OrderlyTurns)
    requires NonePending(e.del) && e.mv.None?
    ensures PathsAgree(e.t) && DeletedClosed(e.t)
    ensures forall x, y :: x in e.t && y in e.t ==> (CheckCycle(e.t[x].path, e.t[y].path) <==> Below(e.t, x, y))
  {
    var w := World(t, map[], map[], None);
    AgreeIsForest(t);
    ForestHasKeys(t);
    WeakerRule(w, e, OrderlyTurns, TakingTurns);
    WeakerRule(w, e, OrderlyTurns, OrderlyMoves);
    TurnRunClosed(w, e);
    OrderlyPathsAgree(t, e);
    forall x: Id, y: Id | x in e.t && y in e.t ensures CheckCycle(e.t[x].path, e.t[y].path) <==> Below(e.t, x, y) {
      CheckExactForAll(e.t, x, y);
    }
  }

  // ---------------------------------------------------------------- runs in which moves keep the depth

  /** Every row stores its true depth, and the running cascade will not change that. */
  ghost predicate DepthsTrue(w: World) {
    && (forall x :: x in w.t ==> TrueAt(w.t, x))
    && (w.mv.Some? ==> w.mv.value.delta == 0)
  }

  ghost predicate TrueAt(t: Table, x: Id)
    requires x in t
  {
    t[x].depth >= 0 && Ends(t, x, t[x].depth)
  }

  lemma TrueAtSameLinks(t: Table, u: Table, x: Id)
    requires SameLinks(t, u) && x in t && TrueAt(t, x) && u[x].depth == t[x].depth
    ensures TrueAt(u, x)
  {
    EndsSameLinks(t, u, x, t[x].depth);
  }

  lemma CreateKeepsDepths(w: World, id: Id, parent: Option<Id>, name: string)
    requires DepthsTrue(w) && Enabled(w, Create(id, parent, name))
    ensures DepthsTrue(Apply(w, Create(id, parent, name)))
  {
    var t, u := w.t, Created(w.t, id, parent, name);
    forall x | x in u ensures TrueAt(u, x) {
      if x != id {
        assert TrueAt(t, x);
        EndsLarger(t, u, x, t[x].depth);
      } else if parent.Some? {
        assert TrueAt(t, parent.value);
        EndsLarger(t, u, parent.value, t[parent.value].depth);
      }
    }
  }

  /** The rows below a folder relinked at its own depth stay where they are. */
  lemma {:induction false} EndsLevel(t: Table, u: Table, s: Id, p: Option<Id>, x: Id, n: nat, sn: nat)
    requires Relinked(t, u, s, p) && Ends(t, x, n) && Ends(t, s, sn) && Ends(u, s, sn)
    ensures Ends(u, x, n)
    decreases n
  {
    if x == s {
      EndsUnique(t, s, n, sn);
    } else if n > 0 {
      EndsLevel(t, u, s, p, t[x].parent.value, n - 1, sn);
    }
  }

  lemma LevelMoveKeepsDepths(w: World, id: Id, target: Option<Id>)
    requires DepthsTrue(w) && Enabled(w, Move(id, target)) && Level(w, Move(id, target))
    requires target.Some? ==> !Below(w.t, target.value, id)
    ensures DepthsTrue(Apply(w, Move(id, target)))
  {
    var t, u := w.t, Moved(w.t, id, target);
    assert TrueAt(t, id);
    if target.Some? {
      assert TrueAt(t, target.value);
      EndsAvoiding(t, u, id, target, target.value, t[target.value].depth);
    }
    assert Ends(u, id, t[id].depth);
    forall x | x in u ensures TrueAt(u, x) {
      assert TrueAt(t, x);
      EndsLevel(t, u, id, target, x, t[x].depth, t[id].depth);
    }
  }

  lemma DepthsUntouched(w: World, s: Step)
    requires Enabled(w, s) && !s.Create? && !s.Move? && (w.mv.Some? ==> w.mv.value.delta == 0)
    ensures SameLinks(w.t, Apply(w, s).t) && forall x :: x in w.t ==> Apply(w, s).t[x].depth == w.t[x].depth
    ensures Apply(w, s).mv.Some? ==> Apply(w, s).mv.value.delta == 0
  {
  }

  lemma DepthsStep(w: World, s: Step)
    requires AllOnTrack(w) && DepthsTrue(w) && Enabled(w, s) && Orderly(w, s) && Level(w, s)
    ensures DepthsTrue(Apply(w, s))
  {
    match s
    case Create(id, parent, name) => CreateKeepsDepths(w, id, parent, name);
    case Move(id, target) =>
      SettledPaths(w);
      OrderlyMoveIsGood(w, id, target);
      LevelMoveKeepsDepths(w, id, target);
    case _ =>
      var w' := Apply(w, s);
      DepthsUntouched(w, s);
      forall x | x in w'.t ensures TrueAt(w'.t, x) {
        assert TrueAt(w.t, x);
        TrueAtSameLinks(w.t, w'.t, x);
      }
  }

  lemma {:induction false} LevelRun(ws: seq<World>, w: World, e: World)
    requires AllOnTrack(w) && DepthsTrue(w) && RunOf(ws, w, e, LevelMoves)
    ensures AllOnTrack(e) && DepthsTrue(e)
    decreases |ws|
  {
    if |ws| > 1 {
      var u := ws[|ws| - 2];
      var s := LastStep(ws, w, e, LevelMoves);
      LevelRun(ws[..|ws| - 1], w, u);
      OrderlyStep(u, s);
      DepthsStep(u, s);
    }
  }

  lemma TrueAtIsNoDrift(t: Table, x: Id)
    requires Forest(t) && x in t && TrueAt(t, x)
    ensures Drift(t, x) == 0
  {
    TrueDepthIs(t, x, t[x].depth);
  }

  lemma DepthsTrueEnd(e: World)
    requires AllOnTrack(e) && DepthsTrue(e)
    ensures Forest(e.t) && forall x :: x in e.t ==> Drift(e.t, x) == 0
    ensures e.mv.None? ==> WellFormed(e.t)
  {
    forall x | x in e.t ensures Drift(e.t, x) == 0 { TrueAtIsNoDrift(e.t, x); }
    if e.mv.None? {
      SettledPaths(e);
      forall x | x in e.t ensures e.t[x].depth == |e.t[x].path| - 1 { NoDriftIsDepth(e.t, x); }
    }
  }

  lemma WellFormedStart(t: Table)
    requires WellFormed(t)
    ensures AllOnTrack(World(t, map[], map[], None)) && DepthsTrue(World(t, map[], map[], None))
  {
    AgreeIsTracked(t);
    forall x | x in t ensures TrueAt(t, x) { WellFormedPath(t, x); }
  }

  /** If moves are orderly and keep the depth of the folder they move, every row stores its true depth at every moment, and
      between moves the table is well-formed. */
  lemma LevelMovesWellFormed(t: Table, e: World)
    requires WellFormed(t) && Leads(World(t, map[], map[], None), e, LevelMoves)
    ensures Forest(e.t) && forall x :: x in e.t ==> Drift(e.t, x) == 0
    ensures e.mv.None? ==> WellFormed(e.t)
  {
    WellFormedStart(t);
    var ws :| RunOf(ws, World(t, map[], map[], None), e, LevelMoves);
    LevelRun(ws, World(t, map[], map[], None), e);
    DepthsTrueEnd(e);
  }
}
