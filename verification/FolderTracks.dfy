/** Stored paths while other steps run: every path the system vouches for is right, or one rewrite away from right. */
module FolderTracks {
  import opened Prelude
  import opened FolderTable
  import opened FolderCascades
  import opened FolderService
  import opened FolderMoves
  import opened FolderWorld
  import opened FolderCover

  // ---------------------------------------------------------------- stored paths while cascades run

  /** A row whose path the system vouches for: active, at the top or under an active parent. */
  predicate Visible(t: Table, x: Id) {
    Active(t, x) && (t[x].parent.Some? ==> Active(t, t[x].parent.value))
  }

  /** The row is there, and its parent too. */
  predicate Linked(t: Table, x: Id) {
    x in t && (t[x].parent.Some? ==> t[x].parent.value in t)
  }

  function ParentPath(t: Table, x: Id): seq<Id>
    requires Linked(t, x)
  {
    if t[x].parent.Some? then t[t[x].parent.value].path else []
  }

  /** While a move cascade runs, a row in its worklist has a path whose rewrite is right; any other row has
      the right path already, except children of the moved folder before the first batch. */
  predicate PathOnTrack(t: Table, mv: Option<Moving>, x: Id)
    requires Linked(t, x)
  {
    match mv
    case None => t[x].path == ParentPath(t, x) + [x]
    case Some(m) =>
      if x in m.todo then Rewrite(t[x].path, m.oldPrefix, m.newPrefix) == ParentPath(t, x) + [x]
      else
        || t[x].path == ParentPath(t, x) + [x]
        || (t[x].parent == Some(m.source) && m.source in m.todo && t[x].path == m.oldPrefix + [x])
  }

  /** The bookkeeping of the running move cascade. */
  ghost predicate MovingInv(t: Table, m: Moving) {
    && PrefixShape(m.oldPrefix, m.newPrefix, m.source)
    && m.source in t && t[m.source].path == m.newPrefix
    && NoDup(m.todo) && Elems(m.todo) !! m.done
    && (m.source in m.done || (m.done == {} && m.todo == [m.source]))
    && (forall x :: x in m.done + Elems(m.todo) ==> MovingRow(t, m, x))
  }

  ghost predicate MovingRow(t: Table, m: Moving, x: Id) {
    && x in t && Below(t, x, m.source)
    && (x != m.source ==> t[x].parent.Some? && t[x].parent.value in m.done)
  }

  ghost predicate OnTrack(w: World) {
    && (forall x {:trigger PathOnTrack(w.t, w.mv, x)} :: Visible(w.t, x) ==> PathOnTrack(w.t, w.mv, x))
    && (forall x :: x in w.t ==> w.t[x].path != [])
    && (w.mv.Some? ==> MovingInv(w.t, w.mv.value))
  }

  lemma {:induction false} BelowSameLinks(t: Table, u: Table, x: Id, r: Id)
    requires SameLinks(t, u) && Below(t, x, r)
    ensures Below(u, x, r)
  {
    var n: nat :| Hops(t, x, r, n);
    HopsSameLinks(t, u, x, r, n);
  }

  /** A step that changes no link and no path, and makes no row visible, keeps everything on track. */
  lemma OnTrackFewer(w: World, w': World)
    requires OnTrack(w) && SameLinks(w.t, w'.t) && w'.mv == w.mv
    requires forall x :: x in w.t ==> w'.t[x].path == w.t[x].path
    requires forall x :: Visible(w'.t, x) ==> Visible(w.t, x)
    ensures OnTrack(w')
  {
    forall x: Id | Visible(w'.t, x) ensures PathOnTrack(w'.t, w'.mv, x) {
      assert PathOnTrack(w.t, w.mv, x);
    }
    if w.mv.Some? { MovingSameLinks(w.t, w.mv.value, w'.t); }
  }

  lemma MovingAcrossCreate(t: Table, m: Moving, id: Id, parent: Option<Id>, name: string, t': Table)
    requires MovingInv(t, m) && id !in t && (parent.Some? ==> parent.value in t) && t' == Created(t, id, parent, name)
    ensures MovingInv(t', m) && id !in m.todo
  {
    forall x | x in m.done + Elems(m.todo) ensures MovingRow(t', m, x) {
      assert MovingRow(t, m, x);
      var n: nat :| Hops(t, x, m.source, n);
      HopsLarger(t, t', x, m.source, n);
    }
    assert id in m.todo ==> id in Elems(m.todo) && MovingRow(t, m, id);
  }

  /** A create leaves the other paths alone and gives the new row the right one. */
  lemma PathAcrossCreate(t: Table, mv: Option<Moving>, id: Id, parent: Option<Id>, name: string, t': Table, x: Id)
    requires Forest(t) && id !in t && (parent.Some? ==> parent.value in t && t[parent.value].path != [])
    requires t' == Created(t, id, parent, name) && Linked(t', x) && (mv.Some? ==> id !in mv.value.todo)
    requires x != id ==> Linked(t, x) && PathOnTrack(t, mv, x)
    ensures PathOnTrack(t', mv, x)
  {
    if x != id && t[x].parent.Some? { ParentInTable(t, x); }
  }

  lemma OnTrackCreate(w: World, id: Id, parent: Option<Id>, name: string)
    requires Forest(w.t) && OnTrack(w) && Enabled(w, Create(id, parent, name))
    ensures OnTrack(Apply(w, Create(id, parent, name)))
  {
    var w' := Apply(w, Create(id, parent, name));
    if w.mv.Some? { MovingAcrossCreate(w.t, w.mv.value, id, parent, name, w'.t); }
    forall x: Id | Visible(w'.t, x) ensures PathOnTrack(w'.t, w'.mv, x) {
      if x != id {
        if w.t[x].parent.Some? { ParentInTable(w.t, x); }
        assert PathOnTrack(w.t, w.mv, x);
      }
      PathAcrossCreate(w.t, w.mv, id, parent, name, w'.t, x);
    }
  }

  lemma {:induction false} HopsLarger(t: Table, u: Table, x: Id, r: Id, n: nat)
    requires t.Keys <= u.Keys && forall z :: z in t ==> u[z].parent == t[z].parent
    requires Hops(t, x, r, n)
    ensures Hops(u, x, r, n)
    decreases n
  {
    if n > 0 { HopsLarger(t, u, t[x].parent.value, r, n - 1); }
  }

  // ---------------------------------------------------------------- when a move is safe

  /** Every row on the walk up from `x` is active. */
  ghost predicate ActiveWalk(t: Table, x: Id) {
    x in t && forall y :: Below(t, x, y) ==> Active(t, y)
  }

  /** The rows whose whole walk is active. */
  ghost function Sound(t: Table): Table {
    map x | x in t && ActiveWalk(t, x) :: t[x]
  }

  lemma ActiveWalkUp(t: Table, x: Id)
    requires ActiveWalk(t, x)
    ensures Active(t, x) && (t[x].parent.Some? ==> ActiveWalk(t, t[x].parent.value))
  {
    assert Hops(t, x, x, 0);
    if t[x].parent.Some? {
      var p := t[x].parent.value;
      assert Hops(t, p, p, 0) && Hops(t, x, p, 1) && Below(t, x, p);
      forall y | Below(t, p, y) ensures Active(t, y) {
        var n: nat :| Hops(t, p, y, n);
        assert Hops(t, x, y, n + 1);
      }
    }
  }

  /** Between moves, rows with an active walk form a table in which all paths agree. */
  lemma SoundPaths(w: World)
    requires OnTrack(w) && w.mv.None?
    ensures ActivePaths(Sound(w.t))
  {
    forall x: Id | Active(Sound(w.t), x) ensures ActiveLink(Sound(w.t), x) {
      ActiveWalkUp(w.t, x);
      if w.t[x].parent.Some? { ActiveWalkUp(w.t, w.t[x].parent.value); }
      assert PathOnTrack(w.t, w.mv, x);
      assert [] + [x] == [x];
    }
  }

  lemma {:induction false} SoundHops(t: Table, x: Id, y: Id, n: nat)
    requires x in Sound(t)
    ensures Hops(t, x, y, n) <==> Hops(Sound(t), x, y, n)
    decreases n
  {
    ActiveWalkUp(t, x);
    if n > 0 && t[x].parent.Some? { SoundHops(t, t[x].parent.value, y, n - 1); }
  }

  lemma SoundBelow(t: Table, x: Id, y: Id)
    requires x in Sound(t)
    ensures Below(t, x, y) <==> Below(Sound(t), x, y)
  {
    if Below(t, x, y) {
      var n: nat :| Hops(t, x, y, n);
      SoundHops(t, x, y, n);
    }
    if Below(Sound(t), x, y) {
      var n: nat :| Hops(Sound(t), x, y, n);
      SoundHops(t, x, y, n);
    }
  }

  /** The ends of a move are safe: every row above the folder and above its target is active. */
  ghost predicate SafeMove(t: Table, id: Id, target: Option<Id>) {
    ActiveWalk(t, id) && (target.Some? ==> ActiveWalk(t, target.value))
  }

  /** A move accepted between safe ends does not close a cycle and has prefixes of the right shape. */
  lemma SafeMoveIsGood(w: World, id: Id, target: Option<Id>)
    requires OnTrack(w) && Enabled(w, Move(id, target)) && SafeMove(w.t, id, target)
    ensures target.Some? ==> !Below(w.t, target.value, id)
    ensures PrefixShape(w.t[id].path, NewPath(w.t, id, target), id)
  {
    var u := Sound(w.t);
    SoundPaths(w);
    ActiveWalkUp(w.t, id);
    if target.Some? {
      ActiveWalkUp(w.t, target.value);
      CheckCycleExact(u, target.value, id);
      ActivePathEnd(u, target.value);
      SoundBelow(w.t, target.value, id);
    }
    MovePrefixShape(u, id, target);
    assert NewPath(u, id, target) == NewPath(w.t, id, target);
  }

  /** A step of a move keeps the graph a forest exactly when the target is not in the moved subtree. */
  lemma MoveForestIff(w: World, id: Id, target: Option<Id>)
    requires Forest(w.t) && Enabled(w, Move(id, target))
    ensures Forest(Apply(w, Move(id, target)).t) <==> (target.Some? ==> !Below(w.t, target.value, id))
  {
    var u := Apply(w, Move(id, target)).t;
    if target.Some? { RelinkKeepsForestIff(w.t, u, id, target.value); } else { RelinkToRoot(w.t, u, id); }
  }

  /** What it takes for an accepted move to close a cycle between two moves: a deleted row on the walk from the target
      up to the moved folder. */
  lemma CycleNeedsDeletedRow(w: World, id: Id, target: Id)
    requires Forest(w.t) && OnTrack(w) && Enabled(w, Move(id, Some(target))) && Below(w.t, target, id)
    ensures exists y :: Below(w.t, target, y) && Below(w.t, y, id) && !Active(w.t, y)
  {
    var n: nat :| Hops(w.t, target, id, n);
    if forall y :: Below(w.t, target, y) && Below(w.t, y, id) ==> Active(w.t, y) {
      ActiveWalkIsRefused(w, id, target, n);
    }
  }

  lemma ActiveWalkIsRefused(w: World, id: Id, target: Id, n: nat)
    requires OnTrack(w) && w.mv.None? && id in w.t && w.t[id].parent != Some(target) && Hops(w.t, target, id, n)
    requires forall y :: Below(w.t, target, y) && Below(w.t, y, id) ==> Active(w.t, y)
    ensures MoveVerdict(w.t, {}, id, Some(target), w.t[id].version, SubtreeHeight(w.t, id)) != Accepted
  {
    WalkIsPrefix(w, target, id, n);
  }

  lemma {:induction false} WalkIsPrefix(w: World, x: Id, s: Id, n: nat)
    requires OnTrack(w) && w.mv.None? && Hops(w.t, x, s, n)
    requires forall y :: Below(w.t, x, y) && Below(w.t, y, s) ==> Active(w.t, y)
    ensures x in w.t && s in w.t && w.t[s].path <= w.t[x].path && w.t[x].path != []
    decreases n
  {
    assert Hops(w.t, x, x, 0) && Below(w.t, x, s);
    if n > 0 {
      var p := w.t[x].parent.value;
      assert Hops(w.t, x, p, 1) && Hops(w.t, p, s, n - 1);
      forall y | Below(w.t, p, y) && Below(w.t, y, s) ensures Active(w.t, y) {
        var k: nat :| Hops(w.t, p, y, k);
        assert Hops(w.t, x, y, k + 1);
      }
      WalkIsPrefix(w, p, s, n - 1);
      assert Below(w.t, p, s) && Active(w.t, p);
      assert PathOnTrack(w.t, w.mv, x);
    }
  }

  /** A move between safe ends puts its cascade on track. */
  lemma OnTrackMove(w: World, id: Id, target: Option<Id>)
    requires Forest(w.t) && OnTrack(w) && Enabled(w, Move(id, target)) && SafeMove(w.t, id, target)
    ensures OnTrack(Apply(w, Move(id, target)))
    ensures Forest(Apply(w, Move(id, target)).t)
  {
    SafeMoveIsGood(w, id, target);
    MoveForestIff(w, id, target);
    var w' := Apply(w, Move(id, target));
    var m := w'.mv.value;
    MovingStarts(w'.t, m);
    NotOwnTarget(w.t, id, target);
    forall x: Id | Visible(w'.t, x) ensures PathOnTrack(w'.t, w'.mv, x) {
      assert x != id ==> Visible(w.t, x) && PathOnTrack(w.t, w.mv, x);
      MoveLinkOf(w.t, id, target, w'.t, m, x);
    }
  }

  lemma NotOwnTarget(t: Table, id: Id, target: Option<Id>)
    requires target.Some? ==> !Below(t, target.value, id)
    ensures target != Some(id)
  {
    assert Hops(t, id, id, 0);
  }

  lemma MovingStarts(t: Table, m: Moving)
    requires PrefixShape(m.oldPrefix, m.newPrefix, m.source)
    requires m.source in t && t[m.source].path == m.newPrefix && m.todo == [m.source] && m.done == {}
    ensures MovingInv(t, m)
  {
    assert Elems(m.todo) == {m.source};
    assert Hops(t, m.source, m.source, 0);
  }

  /** Phase 1 leaves every path either right or one rewrite away from right. */
  lemma MoveLinkOf(t: Table, id: Id, target: Option<Id>, t': Table, m: Moving, x: Id)
    requires id in t && target != Some(id) && (target.Some? ==> target.value in t)
    requires PrefixShape(t[id].path, NewPath(t, id, target), id)
    requires t' == Moved(t, id, target)
    requires m == Moving(id, t[id].path, NewPath(t, id, target), NewDepth(t, target) - t[id].depth, [id], {})
    requires Linked(t', x) && (x != id ==> Linked(t, x) && PathOnTrack(t, None, x))
    ensures PathOnTrack(t', Some(m), x)
  {
    if x == id {
      RewrittenIsStable(m.oldPrefix, m.newPrefix, id, []);
      assert m.newPrefix + [] == m.newPrefix && [] + [id] == [id];
    }
  }

  /** With nothing pending, every active row stores its true path. */
  lemma QuietPaths(w: World)
    requires Forest(w.t) && OnTrack(w) && Cover(w) && NonePending(w.del) && w.mv.None?
    ensures ActivePaths(w.t) && DeletedClosed(w.t)
  {
    QuietIsClosed(w);
    forall x: Id | Active(w.t, x) ensures ActiveLink(w.t, x) {
      if w.t[x].parent.Some? { ParentInTable(w.t, x); }
      assert PathOnTrack(w.t, w.mv, x);
      assert [] + [x] == [x];
    }
  }

  /** The rows a move batch fetches have not been met before, and their parents are being rewritten now. */
  lemma MoveKidsAreNew(t: Table, m: Moving, k: Id)
    requires Forest(t) && MovingInv(t, m) && k in Children(t, BatchSet(m.todo), false)
    ensures k !in m.done && k !in m.todo && k != m.source && Below(t, k, m.source)
  {
    SplitTodo(m.todo);
    var p := t[k].parent.value;
    assert p in m.done + Elems(m.todo) && MovingRow(t, m, p);
    var n: nat :| Hops(t, p, m.source, n);
    assert Hops(t, k, m.source, n + 1);
    if k == m.source { NoCycle(t, k, n + 1); }
    assert k in m.done + Elems(m.todo) ==> MovingRow(t, m, k);
    assert k in m.todo ==> k in Elems(m.todo);
  }

  lemma MovingStep(t: Table, m: Moving, kids: seq<Id>, t': Table, m': Moving)
    requires Forest(t) && MovingInv(t, m) && m.todo != []
    requires NoDup(kids) && Elems(kids) <= Children(t, BatchSet(m.todo), false)
    requires t' == Shift(t, BatchSet(m.todo), m.oldPrefix, m.newPrefix, m.delta)
    requires m' == m.(todo := Rest(m.todo) + kids, done := m.done + BatchSet(m.todo))
    ensures MovingInv(t', m')
  {
    SplitTodo(m.todo);
    ElemsSplit(Rest(m.todo), kids);
    forall k | k in kids ensures k !in m.done && k !in m.todo && k != m.source && Below(t, k, m.source) {
      assert k in Elems(kids);
      MoveKidsAreNew(t, m, k);
    }
    forall k | k in kids ensures k !in Rest(m.todo) { assert k in Rest(m.todo) ==> k in Elems(Rest(m.todo)); }
    NoDupJoin(Rest(m.todo), kids);
    RewrittenIsStable(m.oldPrefix, m.newPrefix, m.source, []);
    assert m.newPrefix + [] == m.newPrefix;
    forall x | x in m'.done + Elems(m'.todo) ensures MovingRow(t', m', x) {
      if x in Elems(kids) {
        BelowSameLinks(t, t', x, m.source);
      } else {
        assert MovingRow(t, m, x);
        BelowSameLinks(t, t', x, m.source);
      }
    }
    assert m.source in m'.done by {
      if m.source !in m.done { assert m.todo[0] == m.source; assert m.source in Batch(m.todo); }
    }
  }

  /** One row across a move batch. */
  lemma PathAcrossBatch(t: Table, m: Moving, kids: seq<Id>, t': Table, m': Moving, x: Id)
    requires Forest(t) && MovingInv(t, m) && m.todo != []
    requires Elems(kids) == Children(t, BatchSet(m.todo), false)
    requires t' == Shift(t, BatchSet(m.todo), m.oldPrefix, m.newPrefix, m.delta)
    requires m' == m.(todo := Rest(m.todo) + kids, done := m.done + BatchSet(m.todo))
    requires Linked(t, x) && PathOnTrack(t, Some(m), x)
    requires t[x].parent.Some? && t[x].parent.value in BatchSet(m.todo) ==> Active(t, x)
    ensures PathOnTrack(t', Some(m'), x)
  {
    SplitTodo(m.todo);
    var b := BatchSet(m.todo);
    assert x in m.todo <==> x in Elems(m.todo);
    assert x in kids <==> x in Elems(kids);
    assert x in Rest(m.todo) <==> x in Elems(Rest(m.todo));
    if t[x].parent.Some? && t[x].parent.value in b {
      var p := t[x].parent.value;
      assert x in Elems(kids);
      MoveKidsAreNew(t, m, x);
      RewriteAppend(t[p].path, x, m.oldPrefix, m.newPrefix, m.source);
      RewrittenIsStable(m.oldPrefix, m.newPrefix, m.source, [x]);
      RewriteAppend(m.oldPrefix, x, m.oldPrefix, m.newPrefix, m.source);
      RewriteOld(m.oldPrefix, m.newPrefix);
    } else {
      assert x !in kids;
      assert ParentPath(t', x) == ParentPath(t, x);
      if x in m.todo {
        assert MovingRow(t, m, x);
      } else {
        assert m.source in m.todo && t[x].parent == Some(m.source) ==> m.source in b by {
          assert m.source in m.todo ==> m.source in Elems(m.todo);
          assert m.todo == [m.source] ==> m.todo[0] in Batch(m.todo);
        }
      }
    }
  }

  lemma RewriteOld(oldPrefix: seq<Id>, newPrefix: seq<Id>)
    ensures Rewrite(oldPrefix, oldPrefix, newPrefix) == newPrefix
  {
    assert oldPrefix[|oldPrefix|..] == [];
  }

  lemma OnTrackMoveBatch(w: World, kids: seq<Id>)
    requires Forest(w.t) && OnTrack(w) && Enabled(w, MoveBatch(kids)) && !MoveCut(w, MoveBatch(kids))
    ensures OnTrack(Apply(w, MoveBatch(kids)))
  {
    var w' := Apply(w, MoveBatch(kids));
    var m, m' := w.mv.value, w'.mv.value;
    FetchedAll(w.t, BatchSet(m.todo), false, kids);
    MovingStep(w.t, m, kids, w'.t, m');
    forall x: Id | Visible(w'.t, x) ensures PathOnTrack(w'.t, w'.mv, x) {
      assert Visible(w.t, x) && PathOnTrack(w.t, w.mv, x);
      PathAcrossBatch(w.t, m, kids, w'.t, m', x);
    }
  }

  lemma OnTrackMoveDone(w: World)
    requires Forest(w.t) && OnTrack(w) && Enabled(w, MoveDone)
    ensures OnTrack(Apply(w, MoveDone))
  {
    var w' := Apply(w, MoveDone);
    forall x: Id | Visible(w'.t, x) ensures PathOnTrack(w'.t, w'.mv, x) {
      assert Visible(w.t, x) && PathOnTrack(w.t, w.mv, x);
    }
  }

  /** Every row that becomes visible when `ids` are reactivated has a path that is right, or that the running move
      cascade will put right. */
  ghost predicate NotStale(t: Table, mv: Option<Moving>, ids: set<Id>) {
    forall x {:trigger PathOnTrack(t, mv, x)} ::
      Visible(Flip(t, ids, false), x) && !Visible(t, x) ==> Linked(t, x) && PathOnTrack(t, mv, x)
  }

  ghost function Reactivated(w: World, s: Step): set<Id>
    requires Enabled(w, s)
  {
    match s
    case Restore(id, _) => {id}
    case RestoreBatch(task, _) => BatchSet(w.res[task])
    case _ => {}
  }

  /** A flip changes no path and no link. */
  lemma FlipKeepsTrack(t: Table, mv: Option<Moving>, u: Table, x: Id)
    requires SameLinks(t, u) && forall y :: y in t ==> u[y].path == t[y].path
    ensures Linked(t, x) <==> Linked(u, x)
    ensures Linked(t, x) ==> (PathOnTrack(t, mv, x) <==> PathOnTrack(u, mv, x))
  {
  }

  lemma RestoreShows(w: World, s: Step)
    requires Enabled(w, s) && (s.Restore? || s.RestoreBatch?)
    ensures Shows(w, Reactivated(w, s), Apply(w, s))
  {
  }

  /** A restore step keeps the stored paths right, whether or not a move cascade is running, exactly when it brings back
      no stale path. */
  lemma RestoreOnTrackIff(w: World, s: Step)
    requires OnTrack(w) && Enabled(w, s) && (s.Restore? || s.RestoreBatch?)
    ensures OnTrack(Apply(w, s)) <==> NotStale(w.t, w.mv, Reactivated(w, s))
  {
    RestoreShows(w, s);
    RestoredTrackIff(w, Reactivated(w, s), Apply(w, s));
  }

  lemma RestoredTrackIff(w: World, ids: set<Id>, w': World)
    requires OnTrack(w) && Shows(w, ids, w')
    ensures OnTrack(w') <==> NotStale(w.t, w.mv, ids)
  {
    if w.mv.Some? { MovingSameLinks(w.t, w.mv.value, w'.t); }
    if NotStale(w.t, w.mv, ids) { FreshIsOnTrack(w, ids, w'); }
    if OnTrack(w') { OnTrackIsFresh(w, ids, w'); }
  }

  /** `w'` shows the rows that reactivating `ids` shows, with the paths of `w`. */
  ghost predicate Shows(w: World, ids: set<Id>, w': World) {
    && SameLinks(w.t, w'.t) && w'.mv == w.mv && (forall x :: x in w.t ==> w'.t[x].path == w.t[x].path)
    && forall x :: Visible(w'.t, x) <==> Visible(Flip(w.t, ids, false), x)
  }

  lemma FreshIsOnTrack(w: World, ids: set<Id>, w': World)
    requires OnTrack(w) && Shows(w, ids, w') && NotStale(w.t, w.mv, ids)
    requires w.mv.Some? ==> MovingInv(w'.t, w.mv.value)
    ensures OnTrack(w')
  {
    forall x: Id | Visible(w'.t, x) ensures PathOnTrack(w'.t, w'.mv, x) {
      FlipKeepsTrack(w.t, w.mv, w'.t, x);
      assert PathOnTrack(w.t, w.mv, x);
    }
  }

  lemma OnTrackIsFresh(w: World, ids: set<Id>, w': World)
    requires OnTrack(w') && Shows(w, ids, w')
    ensures NotStale(w.t, w.mv, ids)
  {
    forall x: Id | Visible(Flip(w.t, ids, false), x) && !Visible(w.t, x)
      ensures Linked(w.t, x) && PathOnTrack(w.t, w.mv, x)
    {
      FlipKeepsTrack(w.t, w.mv, w'.t, x);
      assert Visible(w'.t, x) && PathOnTrack(w'.t, w'.mv, x);
    }
  }

  lemma MovingSameLinks(t: Table, m: Moving, u: Table)
    requires MovingInv(t, m) && SameLinks(t, u) && u[m.source].path == t[m.source].path
    ensures MovingInv(u, m)
  {
    forall x | x in m.done + Elems(m.todo) ensures MovingRow(u, m, x) {
      assert MovingRow(t, m, x);
      BelowSameLinks(t, u, x, m.source);
    }
  }
}
