/** Deletion while other steps run: every active folder under a deleted one is still ahead of some delete worklist. */
module FolderCover {
  import opened Prelude
  import opened FolderTable
  import opened FolderCascades
  import opened FolderService
  import opened FolderWorld

  // ---------------------------------------------------------------- deletes: nothing escapes the cascades

  ghost predicate Queued(tasks: map<TaskId, seq<Id>>, x: Id) {
    exists k :: k in tasks && x in tasks[k]
  }

  /** `x`, or its parent, is waiting in some delete worklist. */
  ghost predicate Pending(w: World, x: Id)
    requires x in w.t && w.t[x].parent.Some?
  {
    Queued(w.del, x) || Queued(w.del, w.t[x].parent.value)
  }

  predicate UnderDeleted(t: Table, x: Id) {
    x in t && t[x].parent.Some? && t[x].parent.value in t && t[t[x].parent.value].deleted
  }

  predicate Orphan(t: Table, x: Id) {
    Active(t, x) && UnderDeleted(t, x)
  }

  /** Every active folder under a deleted parent is still ahead of some delete cascade. */
  ghost predicate Cover(w: World) {
    forall x :: Orphan(w.t, x) ==> Pending(w, x)
  }

  /** Every row this restore batch reactivates ends up under an active parent, or a delete cascade
      still has it or its parent queued. */
  ghost predicate RestoreGuard(w: World, ids: set<Id>) {
    forall x :: x in ids && x in w.t && w.t[x].deleted && UnderDeleted(w.t, x) && w.t[x].parent.value !in ids
                ==> Pending(w, x)
  }

  /** The child query of this delete batch hits its LIMIT. */
  ghost predicate DeleteCut(w: World, s: Step) {
    s.DeleteBatch? && s.task in w.del
    && |Children(Flip(w.t, BatchSet(w.del[s.task]), true), BatchSet(w.del[s.task]), false)| > FETCH_LIMIT
  }

  ghost predicate MoveCut(w: World, s: Step) {
    s.MoveBatch? && w.mv.Some? && |Children(w.t, BatchSet(w.mv.value.todo), false)| > FETCH_LIMIT
  }

  lemma QueuedGrows(tasks: map<TaskId, seq<Id>>, k: TaskId, todo: seq<Id>, x: Id)
    requires k !in tasks && Queued(tasks, x)
    ensures Queued(tasks[k := todo], x)
  {
    var j :| j in tasks && x in tasks[j];
    assert j in tasks[k := todo] && x in tasks[k := todo][j];
  }

  /** What a batch leaves queued: everything but the batch itself. */
  lemma QueuedAfterBatch(tasks: map<TaskId, seq<Id>>, k: TaskId, kids: seq<Id>, x: Id)
    requires k in tasks && (Queued(tasks, x) || x in kids) && x !in BatchSet(tasks[k])
    ensures Queued(tasks[k := Rest(tasks[k]) + kids], x)
  {
    var after := tasks[k := Rest(tasks[k]) + kids];
    SplitTodo(tasks[k]);
    if x in kids {
      assert x in after[k];
    } else {
      var j :| j in tasks && x in tasks[j];
      if j == k { assert x in Elems(tasks[k]); assert x in after[k]; } else { assert x in after[j]; }
    }
  }

  /** A delete batch keeps the cover if it leaves every active child of its parents queued, and only then. */
  lemma DeleteBatchCover(w: World, task: TaskId, kids: seq<Id>)
    requires ForeignKey(w.t) && Cover(w) && Enabled(w, DeleteBatch(task, kids))
    ensures var w' := Apply(w, DeleteBatch(task, kids));
            Cover(w') <==> forall c :: c in Children(w'.t, BatchSet(w.del[task]), false) ==> Pending(w', c)
  {
    var w' := Apply(w, DeleteBatch(task, kids));
    var b := BatchSet(w.del[task]);
    if forall c :: c in Children(w'.t, b, false) ==> Pending(w', c) {
      forall x | Orphan(w'.t, x) ensures Pending(w', x) {
        var p := w.t[x].parent.value;
        if p !in b {
          assert Orphan(w.t, x);
          if Queued(w.del, x) { QueuedAfterBatch(w.del, task, kids, x); } else { QueuedAfterBatch(w.del, task, kids, p); }
        } else {
          assert x in Children(w'.t, b, false);
        }
      }
    }
    if Cover(w') {
      forall c | c in Children(w'.t, b, false) ensures Pending(w', c) {
        assert Orphan(w'.t, c);
      }
    }
  }

  /** Some other worklist, or the rest of this one, holds `x` too. */
  ghost predicate QueuedTwice(w: World, task: TaskId, x: Id)
    requires task in w.del
  {
    x in Rest(w.del[task]) || exists k :: k in w.del && k != task && x in w.del[k]
  }

  /** Nobody else will see the folders of this batch or their children. */
  ghost predicate BatchAlone(w: World, task: TaskId)
    requires task in w.del
  {
    var b := BatchSet(w.del[task]);
    forall x :: x in b || x in Children(w.t, b, false) ==> !QueuedTwice(w, task, x)
  }

  lemma FittingBatchCovers(w: World, task: TaskId, kids: seq<Id>)
    requires ForeignKey(w.t) && Cover(w) && Enabled(w, DeleteBatch(task, kids)) && !DeleteCut(w, DeleteBatch(task, kids))
    ensures Cover(Apply(w, DeleteBatch(task, kids)))
  {
    var w' := Apply(w, DeleteBatch(task, kids));
    var b := BatchSet(w.del[task]);
    FetchedAll(w'.t, b, false, kids);
    forall c | c in Children(w'.t, b, false) ensures Pending(w', c) {
      assert c in Elems(kids);
      assert c in w'.del[task];
    }
    DeleteBatchCover(w, task, kids);
  }

  /** Exactly which delete batches lose nothing: where no other worklist helps, those whose active children number at
      most 1000. What is lost is lost for good, since the code comes back to no batch. */
  lemma DeleteBatchCoverIff(w: World, task: TaskId, kids: seq<Id>)
    requires ForeignKey(w.t) && Cover(w) && Enabled(w, DeleteBatch(task, kids)) && BatchAlone(w, task)
    ensures Cover(Apply(w, DeleteBatch(task, kids)))
            <==> |Children(Flip(w.t, BatchSet(w.del[task]), true), BatchSet(w.del[task]), false)| <= FETCH_LIMIT
  {
    var w' := Apply(w, DeleteBatch(task, kids));
    var b := BatchSet(w.del[task]);
    if DeleteCut(w, DeleteBatch(task, kids)) {
      FetchedIff(w'.t, b, false, kids);
      var c :| c in Children(w'.t, b, false) && c !in Elems(kids);
      LeftOut(w, task, kids, c);
    } else {
      FittingBatchCovers(w, task, kids);
    }
  }

  lemma LeftOut(w: World, task: TaskId, kids: seq<Id>, c: Id)
    requires ForeignKey(w.t) && Enabled(w, DeleteBatch(task, kids)) && BatchAlone(w, task)
    requires c in Children(Flip(w.t, BatchSet(w.del[task]), true), BatchSet(w.del[task]), false) && c !in Elems(kids)
    ensures !Cover(Apply(w, DeleteBatch(task, kids)))
  {
    var w' := Apply(w, DeleteBatch(task, kids));
    var p := w.t[c].parent.value;
    var b := BatchSet(w.del[task]);
    assert c in Children(w.t, b, false);
    assert p !in kids by { assert p in kids ==> p in Elems(kids); }
    forall k | k in w'.del ensures c !in w'.del[k] && p !in w'.del[k] {
      assert !QueuedTwice(w, task, c) && !QueuedTwice(w, task, p);
    }
    assert Orphan(w'.t, c);
  }

  /** Exactly which restore batches keep the cover. */
  lemma RestoreBatchCoverIff(w: World, task: TaskId, kids: seq<Id>)
    requires Cover(w) && Enabled(w, RestoreBatch(task, kids))
    ensures Cover(Apply(w, RestoreBatch(task, kids))) <==> RestoreGuard(w, BatchSet(w.res[task]))
  {
    var w' := Apply(w, RestoreBatch(task, kids));
    var b := BatchSet(w.res[task]);
    if RestoreGuard(w, b) {
      forall x | Orphan(w'.t, x) ensures Pending(w', x) {
        if w.t[x].deleted { assert Pending(w, x); } else { assert Orphan(w.t, x); }
      }
    }
    if Cover(w') {
      forall x | x in b && x in w.t && w.t[x].deleted && UnderDeleted(w.t, x) && w.t[x].parent.value !in b
        ensures Pending(w, x)
      {
        assert Orphan(w'.t, x);
      }
    }
  }

  /** Every step keeps the cover, whatever runs beside it: delete batches that fit the LIMIT, guarded restores. */
  lemma CoverStep(w: World, s: Step)
    requires ForeignKey(w.t) && Cover(w) && Enabled(w, s) && !DeleteCut(w, s)
    requires s.RestoreBatch? ==> RestoreGuard(w, BatchSet(w.res[s.task]))
    ensures Cover(Apply(w, s))
  {
    var w' := Apply(w, s);
    match s
    case DeleteBatch(task, kids) => FittingBatchCovers(w, task, kids);
    case RestoreBatch(task, kids) => RestoreBatchCoverIff(w, task, kids);
    case Delete(id, task) =>
      forall x | Orphan(w'.t, x) ensures Pending(w', x) {
        var p := w.t[x].parent.value;
        if p == id {
          assert id in w'.del[task];
        } else {
          assert Orphan(w.t, x);
          if Queued(w.del, x) { QueuedGrows(w.del, task, [id], x); } else { QueuedGrows(w.del, task, [id], p); }
        }
      }
    case _ =>
      forall x | Orphan(w'.t, x) ensures Pending(w', x) {
        assert Orphan(w.t, x);
      }
  }

  lemma KeysStep(w: World, s: Step)
    requires ForeignKey(w.t) && Enabled(w, s)
    ensures ForeignKey(Apply(w, s).t)
  {
  }

  /** When no delete worklist holds anything, no active folder is left under a deleted one. */
  lemma QuietIsClosed(w: World)
    requires Cover(w) && NonePending(w.del)
    ensures DeletedClosed(w.t)
  {
    forall x: Id | Active(w.t, x) && w.t[x].parent.Some? && w.t[x].parent.value in w.t
      ensures !w.t[w.t[x].parent.value].deleted
    {
      assert Orphan(w.t, x) ==> Pending(w, x);
    }
  }

  // ---------------------------------------------------------------- deletes and restores that do not overlap

  /** Deletes start only with no restore pending, restores only with no delete pending. */
  ghost predicate InTurn(w: World, s: Step) {
    && (s.Delete? ==> NonePending(w.res))
    && (s.Restore? ==> NonePending(w.del))
  }

  /** What taking turns maintains: no row waiting to be restored is under a deleted parent. */
  ghost predicate TurnInv(w: World) {
    && (NonePending(w.res) || NonePending(w.del))
    && (forall k, x :: k in w.res && x in w.res[k] && x in w.t && w.t[x].deleted ==> !UnderDeleted(w.t, x))
  }

  lemma TurnStep(w: World, s: Step)
    requires ForeignKey(w.t) && TurnInv(w) && Enabled(w, s) && InTurn(w, s)
    ensures TurnInv(Apply(w, s))
    ensures s.RestoreBatch? ==> RestoreGuard(w, BatchSet(w.res[s.task]))
  {
    var w' := Apply(w, s);
    if s.RestoreBatch? {
      TurnRestoreBatch(w, s.task, s.kids);
    } else if s.Delete? || s.DeleteBatch? {
      assert NonePending(w.res) && w'.res == w.res;
    } else {
      TurnUnchanged(w, s);
    }
  }

  /** A step that is not part of a delete puts no deleted row under a deleted parent. */
  lemma TurnUnchanged(w: World, s: Step)
    requires ForeignKey(w.t) && TurnInv(w) && Enabled(w, s) && InTurn(w, s)
    requires !s.RestoreBatch? && !s.Delete? && !s.DeleteBatch?
    ensures TurnInv(Apply(w, s))
  {
    var w' := Apply(w, s);
    forall x | x in w'.t && w'.t[x].deleted && UnderDeleted(w'.t, x)
      ensures x in w.t && w.t[x].deleted && UnderDeleted(w.t, x)
    {
    }
  }

  lemma TurnRestoreBatch(w: World, task: TaskId, kids: seq<Id>)
    requires TurnInv(w) && Enabled(w, RestoreBatch(task, kids))
    ensures TurnInv(Apply(w, RestoreBatch(task, kids)))
    ensures RestoreGuard(w, BatchSet(w.res[task]))
  {
    var todo, b := w.res[task], BatchSet(w.res[task]);
    var t' := Flip(w.t, b, false);
    SplitTodo(todo);
    forall x | x in kids && x in t' ensures !UnderDeleted(t', x) { assert x in Elems(kids); }
    forall x | x in todo && x in w.t && w.t[x].deleted ensures !UnderDeleted(w.t, x) && !UnderDeleted(t', x) {}
    forall x | x in Rest(todo) ensures x in todo { assert x in Elems(todo); }
    forall x | x in b ensures x in todo { assert x in Elems(todo); }
  }
}
