/** Phase 1 of the folder operations: the checks of the service in the order it makes them,
    the single-row change, and the cascade task it queues. */
module FolderService {
  import opened Prelude
  import opened FolderTable
  import opened FolderCascades

  datatype Verdict = Accepted | NoOp | Duplicate | NotFound | Conflict | RateLimited | ParentDeleted

  datatype Task =
    | DeleteTask(root: Id)
    | RestoreTask(root: Id)
    | MoveTask(root: Id, oldPrefix: seq<Id>, newPrefix: seq<Id>, delta: int)

  const MAX_FOLDERS := 100000

  // ---------------------------------------------------------------- create

  function CreateVerdict(t: Table, admitted: bool, parent: Option<Id>, name: string): Verdict {
    if !admitted then RateLimited
    else if |ActiveIds(t)| >= MAX_FOLDERS then RateLimited
    else if NameTaken(t, parent, name, None) then Conflict
    else if parent.Some? && !Active(t, parent.value) then NotFound
    else if parent.Some? && t[parent.value].depth >= MAX_DEPTH - 1 then Conflict
    else Accepted
  }

  function Created(t: Table, id: Id, parent: Option<Id>, name: string): Table
    requires parent.Some? ==> parent.value in t
  {
    var row := match parent
      case None => Folder(None, [id], 0, false, name, 1, NotScheduled)
      case Some(p) =>
        var path := if t[p].path != [] then t[p].path + [id] else [p, id];
        Folder(parent, path, t[p].depth + 1, false, name, 1, NotScheduled);
    t[id := row]
  }

  // ---------------------------------------------------------------- soft delete and restore

  function DeleteVerdict(t: Table, locks: set<Id>, id: Id, expected: int): Verdict {
    if !Active(t, id) then NotFound
    else if expected != t[id].version then Conflict
    else if id in locks then Duplicate
    else Accepted
  }

  function SoftDeleted(t: Table, id: Id): Table
    requires id in t
  {
    t[id := t[id].(deleted := true, version := t[id].version + 1, purge := Scheduled)]
  }

  function RestoreVerdict(t: Table, locks: set<Id>, id: Id): Verdict {
    if id !in t || !t[id].deleted then NotFound
    else if t[id].purge.Purging? || t[id].purge.Purged? then Conflict
    else if t[id].parent.Some? && t[id].parent.value in t && t[t[id].parent.value].deleted then ParentDeleted
    else if t[id].parent.Some? && t[id].parent.value in t && t[t[id].parent.value].depth + 1 > MAX_DEPTH then Conflict
    else if id in locks then Duplicate
    else Accepted
  }

  function Restored(t: Table, id: Id): Table
    requires id in t
  {
    t[id := t[id].(deleted := false, version := t[id].version + 1, purge := NotScheduled)]
  }

  // ---------------------------------------------------------------- move

  function NewDepth(t: Table, target: Option<Id>): int
    requires target.Some? ==> target.value in t
  {
    if target.Some? then t[target.value].depth + 1 else 0
  }

  /** `height` is the answer of `get_subtree_height`. */
  function MoveVerdict(t: Table, locks: set<Id>, id: Id, target: Option<Id>, expected: int, height: int): Verdict {
    if target == Some(id) then Conflict
    else if id !in t || (target.Some? && target.value !in t) then NotFound
    else if expected != t[id].version then Conflict
    else if t[id].deleted then Conflict
    else if target.Some? && t[target.value].deleted then Conflict
    else if t[id].parent == target then NoOp
    else if target.Some? && t[target.value].path != [] && CheckCycle(t[target.value].path, t[id].path) then Conflict
    else if NewDepth(t, target) + height > MAX_DEPTH then Conflict
    else if NameTaken(t, target, t[id].name, Some(id)) then Conflict
    else if id in locks then Duplicate
    else Accepted
  }

  function NewPath(t: Table, id: Id, target: Option<Id>): seq<Id>
    requires target.Some? ==> target.value in t
  {
    if target.Some? then t[target.value].path + [id] else [id]
  }

  function Moved(t: Table, id: Id, target: Option<Id>): Table
    requires id in t && (target.Some? ==> target.value in t)
  {
    t[id := t[id].(parent := target, path := NewPath(t, id, target), depth := NewDepth(t, target),
                   version := t[id].version + 1)]
  }

  function MoveTaskOf(t: Table, id: Id, target: Option<Id>): Task
    requires id in t && (target.Some? ==> target.value in t)
  {
    MoveTask(id, t[id].path, NewPath(t, id, target), NewDepth(t, target) - t[id].depth)
  }

  // ---------------------------------------------------------------- the service object

  /** `locks` are the ids whose `lock:ws:…:cascade` key is set in Redis; `queue` is what was sent to Celery. */
  class FolderService {
    const db: FolderDb
    var locks: set<Id>
    var queue: seq<Task>

    constructor (database: FolderDb)
      ensures db == database && locks == {} && queue == []
    {
      db := database;
      locks, queue := {}, [];
    }

    method CreateFolder(id: Id, admitted: bool, parent: Option<Id>, name: string) returns (r: Verdict)
      modifies this, db
      ensures r == CreateVerdict(old(db.rows), admitted, parent, name)
      ensures db.rows == if r.Accepted? then Created(old(db.rows), id, parent, name) else old(db.rows)
      ensures locks == old(locks) && queue == old(queue)
    {
      if !admitted || |ActiveIds(db.rows)| >= MAX_FOLDERS {
        return RateLimited;
      }
      if NameTaken(db.rows, parent, name, None) {
        return Conflict;
      }
      var depth, path := 0, [id];
      if parent.Some? {
        if !Active(db.rows, parent.value) {
          return NotFound;
        }
        var row := db.rows[parent.value];
        if row.depth >= MAX_DEPTH - 1 {
          return Conflict;
        }
        depth := row.depth + 1;
        path := if row.path != [] then row.path + [id] else [parent.value, id];
      }
      db.rows := db.rows[id := Folder(parent, path, depth, false, name, 1, NotScheduled)];
      return Accepted;
    }

    method SoftDeleteFolder(id: Id, expected: int) returns (r: Verdict)
      modifies this, db
      ensures r == DeleteVerdict(old(db.rows), old(locks), id, expected)
      ensures db.rows == if r.Accepted? then SoftDeleted(old(db.rows), id) else old(db.rows)
      ensures locks == if r.Accepted? then old(locks) + {id} else old(locks)
      ensures queue == if r.Accepted? then old(queue) + [DeleteTask(id)] else old(queue)
    {
      if !Active(db.rows, id) { return NotFound; }
      var folder := db.rows[id];
      if expected != folder.version { return Conflict; }
      if id in locks { return Duplicate; }
      locks := locks + {id};
      folder := folder.(deleted := true);
      folder := folder.(version := folder.version + 1);
      folder := folder.(purge := Scheduled);
      db.rows := db.rows[id := folder];
      queue := queue + [DeleteTask(id)];
      return Accepted;
    }

    method RestoreFolder(id: Id) returns (r: Verdict)
      modifies this, db
      ensures r == RestoreVerdict(old(db.rows), old(locks), id)
      ensures db.rows == if r.Accepted? then Restored(old(db.rows), id) else old(db.rows)
      ensures locks == if r.Accepted? then old(locks) + {id} else old(locks)
      ensures queue == if r.Accepted? then old(queue) + [RestoreTask(id)] else old(queue)
    {
      if id !in db.rows || !db.rows[id].deleted { return NotFound; }
      var folder := db.rows[id];
      if folder.purge.Purging? || folder.purge.Purged? { return Conflict; }
      if folder.parent.Some? && folder.parent.value in db.rows {
        var parent := db.rows[folder.parent.value];
        if parent.deleted { return ParentDeleted; }
        if parent.depth + 1 > MAX_DEPTH { return Conflict; }
      }
      if id in locks { return Duplicate; }
      locks := locks + {id};
      folder := folder.(deleted := false);
      folder := folder.(version := folder.version + 1);
      folder := folder.(purge := NotScheduled);
      db.rows := db.rows[id := folder];
      queue := queue + [RestoreTask(id)];
      return Accepted;
    }

    /** `get_subtree_height`: the recursive query level by level. It ends because the folder is not on a
        cycle. */
    method SubtreeHeightQuery(id: Id) returns (h: int)
      requires !OnCycle(db.rows, id) && id in db.rows
      ensures h == SubtreeHeight(db.rows, id)
    {
      var t := db.rows;
      var seen, level, deepest := {}, {id}, id;
      LevelStart(t, id);
      while level != {}
        invariant LevelInv(t, id, seen, level)
        invariant deepest in seen + level
        invariant forall x :: x in seen ==> t[x].depth <= t[deepest].depth
        decreases t.Keys - seen
      {
        deepest := Deeper(t, level, deepest);
        LevelStep(t, id, seen, level);
        seen := seen + level;
        level := Children(t, level, false) + Children(t, level, true);
      }
      LevelEnd(t, id, seen);
      h := (if t[deepest].depth == 0 then t[id].depth else t[deepest].depth) - t[id].depth;
    }

    method Deeper(t: Table, level: set<Id>, start: Id) returns (deepest: Id)
      requires start in t && level <= t.Keys
      ensures deepest in level + {start}
      ensures forall x :: x in level + {start} ==> t[x].depth <= t[deepest].depth
    {
      deepest := start;
      var left := level;
      while left != {}
        invariant left <= level && deepest in (level - left) + {start}
        invariant forall x :: x in (level - left) + {start} ==> t[x].depth <= t[deepest].depth
        decreases left
      {
        var x :| x in left;
        if t[x].depth > t[deepest].depth { deepest := x; }
        left := left - {x};
      }
    }

    method MoveFolder(id: Id, target: Option<Id>, expected: int) returns (r: Verdict)
      requires id in db.rows ==> !OnCycle(db.rows, id)
      modifies this, db
      ensures id !in old(db.rows) ==> r == if target == Some(id) then Conflict else NotFound
      ensures id in old(db.rows) ==>
                r == MoveVerdict(old(db.rows), old(locks), id, target, expected, SubtreeHeight(old(db.rows), id))
      ensures r.Accepted? ==> id in old(db.rows) && (target.Some? ==> target.value in old(db.rows))
      ensures db.rows == if r.Accepted? then Moved(old(db.rows), id, target) else old(db.rows)
      ensures locks == if r.Accepted? then old(locks) + {id} else old(locks)
      ensures queue == if r.Accepted? then old(queue) + [MoveTaskOf(old(db.rows), id, target)] else old(queue)
    {
      if target == Some(id) { return Conflict; }
      if id !in db.rows || (target.Some? && target.value !in db.rows) { return NotFound; }
      var folder := db.rows[id];
      if expected != folder.version { return Conflict; }
      if folder.deleted { return Conflict; }
      if target.Some? && db.rows[target.value].deleted { return Conflict; }
      if folder.parent == target { return NoOp; }
      var targetPath := if target.Some? then db.rows[target.value].path else [];
      if targetPath != [] && CheckCycle(targetPath, folder.path) { return Conflict; }
      var height := SubtreeHeightQuery(id);
      var newDepth := if target.Some? then db.rows[target.value].depth + 1 else 0;
      if newDepth + height > MAX_DEPTH { return Conflict; }
      if NameTaken(db.rows, target, folder.name, Some(id)) { return Conflict; }
      if id in locks { return Duplicate; }
      locks := locks + {id};
      var oldPrefix := folder.path;
      folder := folder.(parent := target);
      assert target.None? ==> targetPath + [id] == [id];
      folder := folder.(path := targetPath + [id]);
      var delta := newDepth - folder.depth;
      folder := folder.(depth := newDepth);
      folder := folder.(version := folder.version + 1);
      db.rows := db.rows[id := folder];
      queue := queue + [MoveTask(id, oldPrefix, folder.path, delta)];
      return Accepted;
    }
  }

  // ---------------------------------------------------------------- the height query terminates and is complete

  ghost predicate LevelInv(t: Table, f: Id, seen: set<Id>, level: set<Id>) {
    && !OnCycle(t, f) && f in t && f in seen + level
    && seen + level <= Subtree(t, f) && seen !! level
    && (forall x :: x in t && t[x].parent.Some? && t[x].parent.value in seen ==> x in seen + level)
    && (forall x :: x in seen + level && x != f ==> t[x].parent.Some? && t[x].parent.value in seen)
    && (f in seen || (seen == {} && level == {f}))
  }

  lemma LevelStart(t: Table, f: Id)
    requires !OnCycle(t, f) && f in t
    ensures LevelInv(t, f, {}, {f})
  {
    assert Hops(t, f, f, 0);
  }

  lemma LevelStep(t: Table, f: Id, seen: set<Id>, level: set<Id>)
    requires LevelInv(t, f, seen, level) && level != {}
    ensures LevelInv(t, f, seen + level, Children(t, level, false) + Children(t, level, true))
    ensures t.Keys - (seen + level) < t.Keys - seen
  {
    var next := Children(t, level, false) + Children(t, level, true);
    forall x | x in next ensures x in Subtree(t, f) && x !in seen + level {
      var p := t[x].parent.value;
      var n: nat :| Hops(t, p, f, n);
      assert Hops(t, x, f, n + 1);
    }
    var y :| y in level;
    assert y in t.Keys - seen && y !in t.Keys - (seen + level);
  }

  lemma LevelEnd(t: Table, f: Id, seen: set<Id>)
    requires LevelInv(t, f, seen, {})
    ensures seen == Subtree(t, f)
  {
    forall x | x in Subtree(t, f) ensures x in seen {
      var n: nat :| Hops(t, x, f, n);
      LevelCovers(t, f, seen, x, n);
    }
  }

  lemma {:induction false} LevelCovers(t: Table, f: Id, seen: set<Id>, x: Id, n: nat)
    requires LevelInv(t, f, seen, {}) && Hops(t, x, f, n)
    ensures x in seen
    decreases n
  {
    if n > 0 { LevelCovers(t, f, seen, t[x].parent.value, n - 1); }
  }

  /** What the recursive query adds in its `n`-th round: the rows `n` links below `f`. */
  ghost function Level(t: Table, f: Id, n: nat): set<Id> {
    set x | x in t && Hops(t, x, f, n)
  }

  lemma NextLevel(t: Table, f: Id, n: nat)
    requires f in t
    ensures Level(t, f, n + 1) == Children(t, Level(t, f, n), false) + Children(t, Level(t, f, n), true)
  {
    forall x | x in Level(t, f, n + 1) ensures t[x].parent.Some? && t[x].parent.value in Level(t, f, n) {
      assert Hops(t, t[x].parent.value, f, n);
    }
  }

  lemma {:induction false} LevelsRunOut(t: Table, f: Id, seen: set<Id>, n: nat) returns (m: nat)
    requires LevelInv(t, f, seen, Level(t, f, n))
    ensures Level(t, f, m) == {}
    decreases t.Keys - seen
  {
    if Level(t, f, n) == {} {
      m := n;
    } else {
      LevelStep(t, f, seen, Level(t, f, n));
      NextLevel(t, f, n);
      m := LevelsRunOut(t, f, seen + Level(t, f, n), n + 1);
    }
  }

  /** On a cycle some row of the cycle is `n` links below `f`, whatever `n` is. */
  lemma {:induction false} CycleFillsLevel(t: Table, f: Id, k: nat, n: nat) returns (x: Id, j: nat)
    requires f in t && k > 0 && Hops(t, f, f, k)
    ensures x in t && Hops(t, x, f, n) && Hops(t, f, x, j)
    decreases n
  {
    if n == 0 {
      x, j := f, 0;
    } else {
      var y, i := CycleFillsLevel(t, f, k, n - 1);
      j := if i > 0 then i - 1 else k - 1;
      if i == 0 { assert y == f; }
      x := LastHop(t, f, y, j + 1);
    }
  }

  /** Exactly when the recursive height query ends: the folder does not lie on a cycle. */
  lemma HeightQueryEndsIff(t: Table, f: Id)
    requires f in t
    ensures (exists n: nat :: Level(t, f, n) == {}) <==> !OnCycle(t, f)
  {
    if OnCycle(t, f) {
      var k: nat :| k > 0 && Hops(t, f, f, k);
      forall n: nat ensures Level(t, f, n) != {} {
        var x, j := CycleFillsLevel(t, f, k, n);
        assert x in Level(t, f, n);
      }
    } else {
      LevelStart(t, f);
      assert Level(t, f, 0) == {f};
      var m := LevelsRunOut(t, f, {}, 0);
    }
  }
}
