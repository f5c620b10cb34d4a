/** What each folder operation, phase 1 followed by its drained cascade, does to the tree. */
module FolderEffects {
  import opened Prelude
  import opened FolderTable
  import opened FolderCascades
  import opened FolderService

  // ---------------------------------------------------------------- create

  /** An accepted create keeps the three representations in step and never goes below depth 9. */
  lemma CreateKeepsTree(t: Table, admitted: bool, id: Id, parent: Option<Id>, name: string, u: Table)
    requires WellFormed(t) && id !in t && CreateVerdict(t, admitted, parent, name) == Accepted
    requires u == Created(t, id, parent, name)
    ensures WellFormed(u) && 0 <= u[id].depth <= MAX_DEPTH - 1
    ensures Ends(u, id, u[id].depth) && TruePath(u, id, u[id].depth) == u[id].path
    ensures DeletedClosed(t) ==> DeletedClosed(u)
  {
    CreatedRow(t, id, parent, name);
    NewLeaf(t, id, parent, u);
    WellFormedPath(u, id);
  }

  lemma CreatedRow(t: Table, id: Id, parent: Option<Id>, name: string)
    requires WellFormed(t) && (parent.Some? ==> Active(t, parent.value) && t[parent.value].depth < MAX_DEPTH - 1)
    ensures Created(t, id, parent, name)[id].depth == |Created(t, id, parent, name)[id].path| - 1 <= MAX_DEPTH - 1
    ensures Created(t, id, parent, name)[id].path
            == if parent.Some? then t[parent.value].path + [id] else [id]
  {
    if parent.Some? { WellFormedPath(t, parent.value); }
  }

  lemma NewLeaf(t: Table, id: Id, parent: Option<Id>, u: Table)
    requires WellFormed(t) && id !in t && (parent.Some? ==> Active(t, parent.value))
    requires id in u && u == t[id := u[id]] && u[id].parent == parent
    requires u[id].path == (if parent.Some? then t[parent.value].path + [id] else [id])
    requires u[id].depth == |u[id].path| - 1
    ensures WellFormed(u) && (DeletedClosed(t) ==> DeletedClosed(u))
  {
    forall x | x in u ensures PathLink(u, x) && (x != id && u[x].parent.Some? ==> u[x].parent.value != id) {
      if x != id { assert PathLink(t, x); }
    }
  }

  /** Create, move and both deletes keep the names of active siblings distinct. */
  lemma NamesStayUnique(t: Table, id: Id, parent: Option<Id>, name: string, height: int, locks: set<Id>, version: int)
    requires SiblingNamesUnique(t)
    ensures id !in t && CreateVerdict(t, true, parent, name) == Accepted
            ==> SiblingNamesUnique(Created(t, id, parent, name))
    ensures MoveVerdict(t, locks, id, parent, version, height) == Accepted
            ==> SiblingNamesUnique(Moved(t, id, parent))
    ensures id in t ==> SiblingNamesUnique(SoftDeleted(t, id))
  {
    if id !in t && CreateVerdict(t, true, parent, name) == Accepted {
      assert !NameTaken(t, parent, name, None);
      var u := Created(t, id, parent, name);
      forall x: Id | Active(u, x) && x != id ensures Active(t, x) && u[x] == t[x] {}
    }
    if MoveVerdict(t, locks, id, parent, version, height) == Accepted {
      assert !NameTaken(t, parent, t[id].name, Some(id));
      var u := Moved(t, id, parent);
      forall x: Id | Active(u, x) && x != id ensures Active(t, x) && u[x] == t[x] {}
    }
  }

  // ---------------------------------------------------------------- delete and restore

  /** Deleting a folder and draining its cascade. */
  ghost function DeletedTree(t: Table, f: Id): Table
    requires f in t
  {
    Flip(SoftDeleted(t, f), Reach(SoftDeleted(t, f), f, false), true)
  }

  ghost function RestoredTree(t: Table, f: Id): Table
    requires f in t
  {
    Flip(Restored(t, f), Reach(Restored(t, f), f, true), false)
  }

  /** In a table whose deleted rows are closed under children, the rows with the right flag below
      `f` are all reached once `f` itself has been flipped. */
  lemma {:induction false} ReachDown(t: Table, u: Table, f: Id, x: Id, n: nat)
    requires DeletedClosed(t) && SameLinks(t, u) && f in t
    requires forall y :: y in t && y != f ==> u[y].deleted == t[y].deleted
    requires Hops(t, x, f, n) && Active(t, x)
    ensures x in Reach(u, f, false)
    decreases n
  {
    if x == f {
      assert Chain(u, f, f, false, 0);
    } else {
      var p := t[x].parent.value;
      assert Hops(t, p, f, n - 1);
      ReachDown(t, u, f, p, n - 1);
      ReachChild(u, f, false, x);
    }
  }

  lemma ReachBelow(t: Table, f: Id, d: bool, x: Id)
    requires x in Reach(t, f, d)
    ensures Below(t, x, f) && (x == f || (x in t && t[x].deleted == d))
  {
    var n: nat :| Chain(t, x, f, d, n);
    ChainIsHops(t, x, f, d, n);
  }

  /** Delete + drained cascade on a quiescent tree: exactly the subtree ends up deleted, rows elsewhere
      are untouched, each flipped row gets one version bump, and the worker's `total_deleted` is the
      number of active strict descendants. */
  lemma DeleteCascadeEffect(t: Table, f: Id)
    requires DeletedClosed(t) && Active(t, f)
    ensures forall x :: x in t ==>
              DeletedTree(t, f)[x].deleted == (t[x].deleted || Below(t, x, f))
    ensures forall x :: x in t && x != f ==>
              DeletedTree(t, f)[x] == if Active(t, x) && Below(t, x, f)
                                      then t[x].(deleted := true, version := t[x].version + 1) else t[x]
    ensures Changing(SoftDeleted(t, f), Reach(SoftDeleted(t, f), f, false), true)
            == set x | x in t && x != f && Active(t, x) && Below(t, x, f)
    ensures DeletedClosed(DeletedTree(t, f))
  {
    var u := SoftDeleted(t, f);
    var r := Reach(u, f, false);
    forall x | x in t ensures x in r <==> (x == f || (Active(t, x) && Below(t, x, f))) {
      if x in r {
        ReachBelow(u, f, false, x);
        var n: nat :| Hops(u, x, f, n);
        HopsSameLinks(t, u, x, f, n);
      }
      if Active(t, x) && Below(t, x, f) {
        var n: nat :| Hops(t, x, f, n);
        ReachDown(t, u, f, x, n);
      }
      if x == f { assert Chain(u, f, f, false, 0); }
    }
    assert Hops(t, f, f, 0);
    var w := DeletedTree(t, f);
    forall x: Id | Active(w, x) && w[x].parent.Some? && w[x].parent.value in w
      ensures !w[w[x].parent.value].deleted
    {
      var p := w[x].parent.value;
      if Below(t, p, f) {
        var n: nat :| Hops(t, p, f, n);
        assert Hops(t, x, f, n + 1);
      }
    }
  }

  /** A subtree whose rows below `f` all have the same flag is reached as a whole. */
  lemma {:induction false} WholeSubtreeReached(t: Table, f: Id, d: bool, x: Id, n: nat)
    requires f in t && x in t && Hops(t, x, f, n)
    requires forall y, k: nat :: y in t && y != f && Hops(t, y, f, k) ==> t[y].deleted == d
    ensures x in Reach(t, f, d)
    decreases n
  {
    if x == f {
      assert Chain(t, f, f, d, 0);
    } else {
      var p := t[x].parent.value;
      assert Hops(t, p, f, n - 1);
      WholeSubtreeReached(t, f, d, p, n - 1);
      ReachChild(t, f, d, x);
    }
  }

  /** Restore + drained cascade: rows that leave the deleted state are exactly those hanging from `f`
      through deleted rows, and on a quiescent tree that is the whole subtree. */
  lemma RestoreCascadeEffect(t: Table, f: Id)
    requires DeletedClosed(t) && f in t && t[f].deleted
    requires t[f].parent.Some? && t[f].parent.value in t ==> !t[t[f].parent.value].deleted
    ensures forall x :: x in t ==>
              RestoredTree(t, f)[x].deleted == (t[x].deleted && !Below(t, x, f))
    ensures forall x :: x in t && x != f && Below(t, x, f) && t[x].deleted ==>
              RestoredTree(t, f)[x] == t[x].(deleted := false, version := t[x].version + 1)
    ensures Changing(Restored(t, f), Reach(Restored(t, f), f, true), false)
            == set x | x in t && x != f && t[x].deleted && Below(t, x, f)
    ensures Forest(t) ==> DeletedClosed(RestoredTree(t, f))
  {
    var u := Restored(t, f);
    forall y, k: nat | y in t && Hops(t, y, f, k) ensures t[y].deleted {
      DeletedDown(t, f, y, k);
    }
    forall x, k: nat | x in t ensures Hops(t, x, f, k) <==> Hops(u, x, f, k) {
      HopsSameLinks(t, u, x, f, k);
    }
    var r := Reach(u, f, true);
    forall x | x in t ensures x in r <==> Below(t, x, f) {
      if Below(t, x, f) {
        var n: nat :| Hops(t, x, f, n);
        WholeSubtreeReached(u, f, true, x, n);
      }
      if x in r {
        ReachBelow(u, f, true, x);
        var n: nat :| Hops(u, x, f, n);
      }
    }
    assert Hops(t, f, f, 0);
    var w := RestoredTree(t, f);
    forall x: Id | Active(w, x) && w[x].parent.Some? && w[x].parent.value in w
      ensures !w[w[x].parent.value].deleted
    {
      var p := w[x].parent.value;
      if Below(t, x, f) && x != f {
        var n: nat :| Hops(t, x, f, n);
        assert Hops(t, p, f, n - 1);
      }
    }
  }

  lemma {:induction false} DeletedDown(t: Table, f: Id, x: Id, n: nat)
    requires DeletedClosed(t) && f in t && t[f].deleted && x in t && Hops(t, x, f, n)
    ensures t[x].deleted
    decreases n
  {
    if n > 0 {
      assert Hops(t, t[x].parent.value, f, n - 1);
      DeletedDown(t, f, t[x].parent.value, n - 1);
    }
  }

  /** Deleting a folder and restoring it, both cascades drained, leaves its whole subtree active;
      so it gives back the original active set exactly when the subtree was wholly active before. */
  lemma DeleteThenRestore(t: Table, f: Id, u: Table, w: Table)
    requires Forest(t) && DeletedClosed(t) && Active(t, f)
    requires u == DeletedTree(t, f) && w == RestoredTree(u, f)
    ensures forall x :: x in t ==> w[x].deleted == (t[x].deleted && !Below(t, x, f))
    ensures ActiveIds(w) == ActiveIds(t) <==> (forall x :: x in Subtree(t, f) ==> Active(t, x))
  {
    DeleteCascadeEffect(t, f);
    assert Hops(t, f, f, 0);
    assert SameLinks(t, u);
    forall x ensures Below(t, x, f) <==> Below(u, x, f) {
      if Below(t, x, f) { var n: nat :| Hops(t, x, f, n); HopsSameLinks(t, u, x, f, n); }
      if Below(u, x, f) { var n: nat :| Hops(u, x, f, n); HopsSameLinks(t, u, x, f, n); }
    }
    assert u[f].parent.Some? && u[f].parent.value in u ==> !u[u[f].parent.value].deleted by {
      if u[f].parent.Some? && u[f].parent.value in u && u[u[f].parent.value].deleted {
        var n: nat :| Hops(t, t[f].parent.value, f, n);
        assert Hops(t, f, f, n + 1);
        NoCycle(t, f, n + 1);
      }
    }
    RestoreCascadeEffect(u, f);
    if ActiveIds(w) == ActiveIds(t) {
      forall x | x in Subtree(t, f) ensures Active(t, x) { assert x in ActiveIds(w); }
    } else {
      var x :| x in ActiveIds(w) <==> x !in ActiveIds(t);
      assert x in Subtree(t, f) && !Active(t, x);
    }
  }
}
