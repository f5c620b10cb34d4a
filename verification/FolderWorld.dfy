/** Requests and workers interleaved: every transaction is one atomic step, any number of delete and
    restore cascades run at once, each with its own worklist, beside at most one move cascade.

    The Redis cascade locks are not part of the state: they expire after five minutes and only ever
    forbid steps, so every run they allow is a run here. */
module FolderWorld {
  import opened Prelude
  import opened FolderTable
  import opened FolderCascades
  import opened FolderService

  type TaskId = nat

  /** A running move cascade; `done` records the rows already rewritten. */
  datatype Moving = Moving(source: Id, oldPrefix: seq<Id>, newPrefix: seq<Id>, delta: int,
                           todo: seq<Id>, done: set<Id>)

  datatype World = World(t: Table, del: map<TaskId, seq<Id>>, res: map<TaskId, seq<Id>>, mv: Option<Moving>)

  /** `kids` is the answer of the batch's child query. */
  datatype Step =
    | Create(id: Id, parent: Option<Id>, name: string)
    | Delete(id: Id, task: TaskId)
    | DeleteBatch(task: TaskId, kids: seq<Id>)
    | Restore(id: Id, task: TaskId)
    | RestoreBatch(task: TaskId, kids: seq<Id>)
    | Move(id: Id, target: Option<Id>)
    | MoveBatch(kids: seq<Id>)
    | MoveDone

  function Batch(todo: seq<Id>): seq<Id> { todo[..Take(todo)] }

  function Rest(todo: seq<Id>): seq<Id> { todo[Take(todo)..] }

  ghost function BatchSet(todo: seq<Id>): set<Id> { Elems(Batch(todo)) }

  lemma SplitTodo(todo: seq<Id>)
    ensures todo == Batch(todo) + Rest(todo)
    ensures Elems(todo) == BatchSet(todo) + Elems(Rest(todo))
    ensures NoDup(todo) ==> BatchSet(todo) !! Elems(Rest(todo)) && NoDup(Rest(todo))
  {
    assert todo == Batch(todo) + Rest(todo);
    ElemsSplit(Batch(todo), Rest(todo));
    if NoDup(todo) { NoDupParts(Batch(todo), Rest(todo)); }
  }

  ghost predicate Enabled(w: World, s: Step) {
    match s
    case Create(id, parent, name) => id !in w.t && CreateVerdict(w.t, true, parent, name) == Accepted
    case Delete(id, task) => Active(w.t, id) && task !in w.del
    case DeleteBatch(task, kids) =>
      task in w.del && w.del[task] != []
      && Fetched(Flip(w.t, BatchSet(w.del[task]), true), BatchSet(w.del[task]), false, kids)
    case Restore(id, task) => RestoreVerdict(w.t, {}, id) == Accepted && task !in w.res
    case RestoreBatch(task, kids) =>
      task in w.res && w.res[task] != []
      && Fetched(Flip(w.t, BatchSet(w.res[task]), false), BatchSet(w.res[task]), true, kids)
    case Move(id, target) =>
      id in w.t && w.mv.None?
      && MoveVerdict(w.t, {}, id, target, w.t[id].version, SubtreeHeight(w.t, id)) == Accepted
    case MoveBatch(kids) =>
      w.mv.Some? && w.mv.value.todo != []
      && DepthsFit(w.t, BatchSet(w.mv.value.todo), w.mv.value.delta)
      && Fetched(w.t, BatchSet(w.mv.value.todo), false, kids)
    case MoveDone => w.mv.Some? && w.mv.value.todo == []
  }

  ghost function Apply(w: World, s: Step): World
    requires Enabled(w, s)
  {
    match s
    case Create(id, parent, name) => w.(t := Created(w.t, id, parent, name))
    case Delete(id, task) => w.(t := SoftDeleted(w.t, id), del := w.del[task := [id]])
    case DeleteBatch(task, kids) =>
      var todo := w.del[task];
      w.(t := Flip(w.t, BatchSet(todo), true), del := w.del[task := Rest(todo) + kids])
    case Restore(id, task) => w.(t := Restored(w.t, id), res := w.res[task := [id]])
    case RestoreBatch(task, kids) =>
      var todo := w.res[task];
      w.(t := Flip(w.t, BatchSet(todo), false), res := w.res[task := Rest(todo) + kids])
    case Move(id, target) =>
      var task := MoveTaskOf(w.t, id, target);
      w.(t := Moved(w.t, id, target),
         mv := Some(Moving(id, task.oldPrefix, task.newPrefix, task.delta, [id], {})))
    case MoveBatch(kids) =>
      var m := w.mv.value;
      w.(t := Shift(w.t, BatchSet(m.todo), m.oldPrefix, m.newPrefix, m.delta),
         mv := Some(m.(todo := Rest(m.todo) + kids, done := m.done + BatchSet(m.todo))))
    case MoveDone => w.(t := BumpIf(true, w.t, w.mv.value.source), mv := None)
  }

  predicate NonePending(tasks: map<TaskId, seq<Id>>) {
    forall k :: k in tasks ==> tasks[k] == []
  }
}
