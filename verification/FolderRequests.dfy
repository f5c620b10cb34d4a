/** What each folder request answers, told by the tree rather than by its checks, and what the version column protects
    against. */
module FolderRequests {
  import opened Prelude
  import opened FolderTable
  import opened FolderCascades
  import opened FolderService
  import opened FolderEffects
  import opened FolderMoves
  import opened FolderWorld
  import opened FolderRuns

  // ---------------------------------------------------------------- no lost updates

  /** The row is what it was, or carries a greater version. */
  predicate Marked(f: Folder, g: Folder) {
    f == g || f.version < g.version
  }

  lemma StepMarksChange(w: World, s: Step, x: Id)
    requires Enabled(w, s) && x in w.t
    ensures x in Apply(w, s).t && Marked(w.t[x], Apply(w, s).t[x])
  {
  }

  lemma {:induction false} RunMarksChange(ws: seq<World>, w: World, e: World, x: Id)
    requires RunOf(ws, w, e, AnyStep) && x in w.t
    ensures x in e.t && Marked(w.t[x], e.t[x])
    decreases |ws|
  {
    if |ws| > 1 {
      var u := ws[|ws| - 2];
      var s := LastStep(ws, w, e, AnyStep);
      RunMarksChange(ws[..|ws| - 1], w, u, x);
      StepMarksChange(u, s, x);
    }
  }

  /** No lost update. Whatever requests and workers have done since a client read a folder, a delete that carries the
      version it read is accepted if the row is still the one it read, and refused as a conflict otherwise; so is a move
      of a row that has changed. */
  lemma NoLostUpdate(w: World, e: World, x: Id, locks: set<Id>, target: Option<Id>, height: int)
    requires Leads(w, e, AnyStep) && x in w.t
    ensures x in e.t
    ensures Active(e.t, x) && x !in locks ==>
              DeleteVerdict(e.t, locks, x, w.t[x].version) == if e.t[x] == w.t[x] then Accepted else Conflict
    ensures target != Some(x) && (target.Some? ==> target.value in e.t) && e.t[x] != w.t[x] ==>
              MoveVerdict(e.t, locks, x, target, w.t[x].version, height) == Conflict
  {
    var ws :| RunOf(ws, w, e, AnyStep);
    RunMarksChange(ws, w, e, x);
  }

  /** Of two clients that have read the same version only the first gets through, whatever the two of them ask for. */
  lemma OnlyFirstWins(t: Table, locks: set<Id>, locks': set<Id>, x: Id, v: int, first: Option<Id>, second: Option<Id>,
                      height: int, height': int)
    requires second != Some(x) && (second.Some? ==> second.value in t)
    ensures MoveVerdict(t, locks, x, first, v, height) == Accepted ==>
              && DeleteVerdict(Moved(t, x, first), locks', x, v) == Conflict
              && MoveVerdict(Moved(t, x, first), locks', x, second, v, height') == Conflict
    ensures DeleteVerdict(t, locks, x, v) == Accepted ==>
              && DeleteVerdict(SoftDeleted(t, x), locks', x, v) == NotFound
              && MoveVerdict(SoftDeleted(t, x), locks', x, second, v, height') == Conflict
  {
  }

  // ---------------------------------------------------------------- when a request is accepted

  /** No active folder but `except` goes by that name there. */
  ghost predicate NameFree(t: Table, parent: Option<Id>, name: string, except: Option<Id>) {
    forall x :: Active(t, x) && t[x].parent == parent && Some(x) != except ==> t[x].name != name
  }

  lemma TrueStoredDepth(t: Table, x: Id)
    requires WellFormed(t) && Forest(t) && x in t
    ensures t[x].depth == TrueDepth(t, x)
  {
    WellFormedDepth(t, x);
  }

  /** Exactly when a create is accepted, and what it answers otherwise. */
  lemma CreateAnswers(t: Table, admitted: bool, parent: Option<Id>, name: string)
    requires WellFormed(t) && Forest(t)
    ensures var v := CreateVerdict(t, admitted, parent, name);
            var roomy, free := admitted && |ActiveIds(t)| < 100000, NameFree(t, parent, name, None);
            var found := parent.Some? ==> Active(t, parent.value);
            && (v == RateLimited <==> !roomy)
            && (v == NotFound <==> roomy && free && !found)
            && (v == Accepted <==> roomy && free && found && (parent.Some? ==> TrueDepth(t, parent.value) + 1 <= 9))
            && v in {RateLimited, NotFound, Accepted, Conflict}
  {
    if parent.Some? && parent.value in t { TrueStoredDepth(t, parent.value); }
    if !NameTaken(t, parent, name, None) { assert NameFree(t, parent, name, None); }
  }

  /** What a delete answers. */
  lemma DeleteAnswers(t: Table, locks: set<Id>, id: Id, expected: int)
    ensures var v := DeleteVerdict(t, locks, id, expected);
            && (v == Accepted <==> Active(t, id) && t[id].version == expected && id !in locks)
            && (v == NotFound <==> id !in t || t[id].deleted)
            && (v == Duplicate <==> id in locks && DeleteVerdict(t, {}, id, expected) == Accepted)
            && v in {Accepted, NotFound, Duplicate, Conflict}
  {
  }

  /** Exactly when a restore is accepted, and what it answers otherwise. */
  lemma RestoreAnswers(t: Table, locks: set<Id>, id: Id)
    requires WellFormed(t) && Forest(t)
    ensures var v := RestoreVerdict(t, locks, id);
            var gone := id in t && t[id].deleted;
            var kept := gone && t[id].purge != Purging && t[id].purge != Purged;
            && (v == NotFound <==> !gone)
            && (v == ParentDeleted <==> kept && t[id].parent.Some? && !Active(t, t[id].parent.value))
            && (v == Accepted <==> kept && id !in locks && TrueDepth(t, id) <= 10
                                   && (t[id].parent.Some? ==> Active(t, t[id].parent.value)))
            && (v == Duplicate <==> id in locks && RestoreVerdict(t, {}, id) == Accepted)
            && v in {NotFound, ParentDeleted, Accepted, Duplicate, Conflict}
  {
    if id in t {
      TrueStoredDepth(t, id);
      assert PathLink(t, id);
      if t[id].parent.Some? { TrueStoredDepth(t, t[id].parent.value); }
      WellFormedPath(t, id);
    }
  }

  /** The folder and its subtree fit at their new place. */
  ghost predicate Fits(t: Table, id: Id, target: Option<Id>)
    requires Forest(t) && id in t && (target.Some? ==> target.value in t)
  {
    forall x :: x in Subtree(t, id) ==> NewTrueDepth(t, target) + TrueDepth(t, x) - TrueDepth(t, id) <= 10
  }

  lemma FitsIff(t: Table, id: Id, target: Option<Id>)
    requires WellFormed(t) && Forest(t) && id in t && (target.Some? ==> target.value in t)
    ensures Fits(t, id, target) <==> NewDepth(t, target) + SubtreeHeight(t, id) <= MAX_DEPTH
  {
    TrueStoredDepth(t, id);
    if target.Some? { TrueStoredDepth(t, target.value); }
    HeightFallsShort(t, id);
    WellFormedPath(t, id);
    forall x | x in Subtree(t, id) ensures TrueDepth(t, x) == t[x].depth { TrueStoredDepth(t, x); }
    var m := DeepestIn(t, id);
    var deepest :| deepest in Subtree(t, id) && t[deepest].depth == m;
  }

  lemma NameTakenIff(t: Table, parent: Option<Id>, name: string, except: Option<Id>)
    ensures NameTaken(t, parent, name, except) <==> !NameFree(t, parent, name, except)
  {
    if !NameFree(t, parent, name, except) {
      var x :| Active(t, x) && t[x].parent == parent && Some(x) != except && t[x].name == name;
    }
  }

  lemma CycleCheckIff(t: Table, id: Id, target: Id)
    requires ActivePaths(t) && Active(t, id) && Active(t, target)
    ensures t[target].path != [] && CheckCycle(t[target].path, t[id].path) <==> Below(t, target, id)
  {
    CheckCycleExact(t, target, id);
    ActivePathEnd(t, target);
  }

  /** The verdict on a move between active ends, from what its three checks find. */
  lemma ChecksDecide(t: Table, locks: set<Id>, id: Id, target: Option<Id>, expected: int, height: int, inside: bool,
                     fits: bool, free: bool)
    requires Active(t, id) && (target.Some? ==> Active(t, target.value))
    requires target.Some? ==> (inside <==> t[target.value].path != [] && CheckCycle(t[target.value].path, t[id].path))
    requires target == Some(id) ==> inside
    requires fits <==> NewDepth(t, target) + height <= MAX_DEPTH
    requires free <==> !NameTaken(t, target, t[id].name, Some(id))
    ensures MoveVerdict(t, locks, id, target, expected, height) == Accepted
            <==> t[id].version == expected && id !in locks && t[id].parent != target && (target.Some? ==> !inside) && fits
                 && free
  {
  }

  lemma InactiveIsRefused(t: Table, locks: set<Id>, id: Id, target: Option<Id>, expected: int, height: int)
    requires !Active(t, id) || (target.Some? && !Active(t, target.value))
    ensures MoveVerdict(t, locks, id, target, expected, height) != Accepted
  {
  }

  /** Exactly when a move is accepted on a quiescent well-formed tree. */
  lemma MoveAcceptedIff(t: Table, locks: set<Id>, id: Id, target: Option<Id>, expected: int)
    requires WellFormed(t) && Forest(t) && DeletedClosed(t) && id in t
    ensures MoveVerdict(t, locks, id, target, expected, SubtreeHeight(t, id)) == Accepted
            <==> && Active(t, id) && t[id].version == expected && id !in locks && t[id].parent != target
                 && (target.Some? ==> Active(t, target.value) && !Below(t, target.value, id))
                 && Fits(t, id, target) && NameFree(t, target, t[id].name, Some(id))
  {
    if Active(t, id) && (target.Some? ==> Active(t, target.value)) {
      MoveBetweenActive(t, locks, id, target, expected);
    } else {
      InactiveIsRefused(t, locks, id, target, expected, SubtreeHeight(t, id));
    }
  }

  lemma MoveBetweenActive(t: Table, locks: set<Id>, id: Id, target: Option<Id>, expected: int)
    requires WellFormed(t) && Forest(t) && DeletedClosed(t)
    requires Active(t, id) && (target.Some? ==> Active(t, target.value))
    ensures MoveVerdict(t, locks, id, target, expected, SubtreeHeight(t, id)) == Accepted
            <==> && t[id].version == expected && id !in locks && t[id].parent != target
                 && (target.Some? ==> !Below(t, target.value, id))
                 && Fits(t, id, target) && NameFree(t, target, t[id].name, Some(id))
  {
    var inside := target.Some? && Below(t, target.value, id);
    if target.Some? {
      AgreeIsActive(t);
      CycleCheckIff(t, id, target.value);
      SelfIsBelow(t, id);
    }
    FitsIff(t, id, target);
    NameTakenIff(t, target, t[id].name, Some(id));
    ChecksDecide(t, locks, id, target, expected, SubtreeHeight(t, id), inside, Fits(t, id, target),
                 NameFree(t, target, t[id].name, Some(id)));
  }

  lemma SelfIsBelow(t: Table, id: Id)
    ensures Below(t, id, id)
  {
    assert Hops(t, id, id, 0);
  }

  /** What a move answers otherwise. */
  lemma MoveAnswers(t: Table, locks: set<Id>, id: Id, target: Option<Id>, expected: int, height: int)
    ensures var v := MoveVerdict(t, locks, id, target, expected, height);
            var found := id in t && (target.Some? ==> target.value in t);
            && (v == NotFound <==> target != Some(id) && !found)
            && (v == NoOp <==> target != Some(id) && found && t[id].version == expected && Active(t, id)
                               && (target.Some? ==> Active(t, target.value)) && t[id].parent == target)
            && (v == Duplicate <==> id in locks && MoveVerdict(t, {}, id, target, expected, height) == Accepted)
            && v in {Accepted, NotFound, NoOp, Duplicate, Conflict}
  {
  }

  /** A move that is asked for again changes nothing, whether its cascade still runs or not. */
  lemma RepeatedMoveIsNoOp(t: Table, locks: set<Id>, locks': set<Id>, id: Id, target: Option<Id>, v: int, height: int,
                           height': int)
    requires MoveVerdict(t, locks, id, target, v, height) == Accepted
    ensures MoveVerdict(Moved(t, id, target), locks', id, target, v + 1, height') == NoOp
  {
  }

  // ---------------------------------------------------------------- what a request does to its row

  /** A new folder can be edited at version 1; deleting and restoring it changes nothing but the version; and its name is
      taken. */
  lemma NewFolderIsEditable(t: Table, id: Id, parent: Option<Id>, name: string)
    requires id !in t && CreateVerdict(t, true, parent, name) == Accepted
    ensures var u := Created(t, id, parent, name);
            && DeleteVerdict(u, {}, id, 1) == Accepted
            && RestoreVerdict(SoftDeleted(u, id), {}, id) == Accepted
            && Restored(SoftDeleted(u, id), id) == u[id := u[id].(version := 3)]
            && CreateVerdict(u, true, parent, name) in {Conflict, RateLimited}
  {
  }

  /** Deleting and restoring a folder leaves its row as it was, two versions on and with no purge scheduled; in between it
      can be restored, until its purge begins. */
  lemma RestoreUndoesDelete(t: Table, id: Id)
    requires WellFormed(t) && DeletedClosed(t) && Active(t, id) && t[id].depth <= MAX_DEPTH
    ensures var u := SoftDeleted(t, id);
            && RestoreVerdict(u, {}, id) == Accepted
            && Restored(u, id) == t[id := t[id].(version := t[id].version + 2, purge := NotScheduled)]
            && RestoreVerdict(u[id := u[id].(purge := Purging)], {}, id) == Conflict
            && RestoreVerdict(u[id := u[id].(purge := Purged)], {}, id) == Conflict
  {
    assert PathLink(t, id);
  }

  /** The delete of a folder alone schedules its purge, and only a restore of that folder alone takes it back: brought back
      with the subtree of a folder above it, it is active and still scheduled. */
  lemma ScheduleOutlivesRestore(t: Table, f: Id, x: Id, u: Table, v: Table, w: Table)
    requires Forest(t) && DeletedClosed(t) && Active(t, f) && Active(t, x) && x != f && Below(t, x, f)
    requires u == DeletedTree(t, x) && v == DeletedTree(u, f) && w == RestoredTree(v, f)
    ensures Active(w, f) && w[f].purge == NotScheduled
    ensures Active(w, x) && w[x].purge == Scheduled
  {
    FirstDelete(t, f, x, u);
    SecondDelete(t, f, x, u, v);
    BelowStays(t, v, x, f);
    RestoreCascadeEffect(v, f);
    SelfIsBelow(v, f);
  }

  lemma FirstDelete(t: Table, f: Id, x: Id, u: Table)
    requires Forest(t) && DeletedClosed(t) && Active(t, f) && Active(t, x) && x != f && Below(t, x, f)
    requires u == DeletedTree(t, x)
    ensures SameLinks(t, u) && DeletedClosed(u) && Active(u, f) && x in u && u[x].deleted && u[x].purge == Scheduled
    ensures t[f].parent.Some? && t[f].parent.value in u ==>
              Active(u, t[f].parent.value) && !Below(u, t[f].parent.value, f)
  {
    DeleteCascadeEffect(t, x);
    SelfIsBelow(t, x);
    NotAbove(t, x, f);
    ParentStaysActive(t, u, f, x);
  }

  lemma SecondDelete(t: Table, f: Id, x: Id, u: Table, v: Table)
    requires SameLinks(t, u) && DeletedClosed(u) && Active(u, f)
    requires x in u && x != f && u[x].deleted && u[x].purge == Scheduled
    requires t[f].parent.Some? && t[f].parent.value in u ==>
               Active(u, t[f].parent.value) && !Below(u, t[f].parent.value, f)
    requires v == DeletedTree(u, f)
    ensures SameLinks(t, v) && DeletedClosed(v) && v[f].deleted && v[x].deleted && v[x].purge == Scheduled
    ensures v[f].parent.Some? && v[f].parent.value in v ==> !v[v[f].parent.value].deleted
  {
    DeleteCascadeEffect(u, f);
    SelfIsBelow(u, f);
  }

  lemma NotAbove(t: Table, x: Id, f: Id)
    requires Forest(t) && x in t && x != f && Below(t, x, f)
    ensures !Below(t, f, x)
  {
    if Below(t, f, x) {
      var n: nat :| Hops(t, x, f, n);
      var m: nat :| Hops(t, f, x, m);
      HopsJoin(t, x, f, x, n, m);
      NoCycle(t, x, n + m);
    }
  }

  lemma {:induction false} HopsJoin(t: Table, x: Id, y: Id, z: Id, n: nat, m: nat)
    requires Hops(t, x, y, n) && Hops(t, y, z, m)
    ensures Hops(t, x, z, n + m)
    decreases n
  {
    if n > 0 { HopsJoin(t, t[x].parent.value, y, z, n - 1, m); }
  }

  lemma BelowStays(t: Table, v: Table, x: Id, f: Id)
    requires SameLinks(t, v) && Below(t, x, f)
    ensures Below(v, x, f)
  {
    var n: nat :| Hops(t, x, f, n);
    HopsSameLinks(t, v, x, f, n);
  }

  lemma ParentStaysActive(t: Table, u: Table, f: Id, x: Id)
    requires Forest(t) && DeletedClosed(t) && Active(t, f) && Below(t, x, f) && x in t
    requires SameLinks(t, u) && forall y :: y in t ==> u[y].deleted == (t[y].deleted || Below(t, y, x))
    ensures t[f].parent.Some? && t[f].parent.value in u ==>
              Active(u, t[f].parent.value) && !Below(u, t[f].parent.value, f)
  {
    if t[f].parent.Some? && t[f].parent.value in u {
      var p := t[f].parent.value;
      if Below(t, p, x) {
        var n: nat :| Hops(t, p, x, n);
        assert Hops(t, f, x, n + 1);
        var m: nat :| Hops(t, x, f, m);
        HopsJoin(t, f, x, f, n + 1, m);
        NoCycle(t, f, n + 1 + m);
      }
      if Below(u, p, f) {
        var n: nat :| Hops(u, p, f, n);
        HopsSameLinks(t, u, p, f, n);
        assert Hops(t, f, f, n + 1);
        NoCycle(t, f, n + 1);
      }
    }
  }
}
