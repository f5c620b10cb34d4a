/** The pipeline listeners on one document: status guards, and promotion of the version whose vectors are complete,
    under events that may be duplicated or arrive in any order. */
module VersionPromotion {
  import opened Prelude

  type VersionId = nat

  datatype Status = Pending | Uploaded | Processed | Chunking | Embedding | VectorSync | Ready | Failed

  datatype Version = Version(number: nat, activeVector: bool)

  /** A document row and the version rows that belong to it. */
  datatype Doc = Doc(status: Status, latest: Option<VersionId>, versions: map<VersionId, Version>)

  /** Pipeline events whose dispatch to the broker succeeds; the staging of a new version by a re-upload; a rollback,
      which clones an old version as the newest one; and a re-ingestion of the promoted one. */
  datatype Event =
    | DocumentProcessed
    | ChunkingCompleted
    | EmbeddingCompleted
    | VectorsIndexed(target: Option<VersionId>)
    | Staged(id: VersionId)
    | RolledBack(source: VersionId, id: VersionId)
    | Reingested

  function Lookup(d: Doc, id: Option<VersionId>): Option<Version> {
    if id.Some? && id.value in d.versions then Some(d.versions[id.value]) else None
  }

  /** The version a completion is about: the one it names, or the promoted one when it names none. */
  function Target(d: Doc, named: Option<VersionId>): Option<VersionId> {
    if named.Some? then named else d.latest
  }

  /** `set_active_version`: all rows off, then the one on. */
  function Activated(versions: map<VersionId, Version>, id: VersionId): map<VersionId, Version> {
    map v | v in versions :: versions[v].(activeVector := v == id)
  }

  function Guarded(d: Doc, next: Status): Doc {
    if d.status != Ready then d.(status := next) else d
  }

  function Synced(d: Doc, named: Option<VersionId>): Doc {
    var target := Target(d, named);
    if target.None? then d.(status := Ready)
    else
      var current, candidate := Lookup(d, d.latest), Lookup(d, target);
      if current.None? || (candidate.Some? && candidate.value.number >= current.value.number) then
        Doc(Ready, target, Activated(d.versions, target.value))
      else if candidate.Some? then
        d.(versions := d.versions[target.value := candidate.value.(activeVector := false)])
      else d
  }

  /** `coalesce(max(version_number), 0)`. */
  ghost predicate IsHighest(versions: map<VersionId, Version>, n: nat) {
    && (forall v :: v in versions ==> versions[v].number <= n)
    && (n == 0 || exists v :: v in versions && versions[v].number == n)
  }

  /** A new row, numbered one above the highest, starts out inactive. */
  ghost predicate Adds(d: Doc, d': Doc, id: VersionId) {
    && id !in d.versions && d.latest != Some(id)
    && id in d'.versions && d'.versions == d.versions[id := d'.versions[id]]
    && d'.versions[id].number > 0 && IsHighest(d.versions, d'.versions[id].number - 1) && !d'.versions[id].activeVector
  }

  ghost predicate Next(d: Doc, e: Event, d': Doc) {
    match e
    case DocumentProcessed => d' == Guarded(d, Chunking)
    case ChunkingCompleted => d' == Guarded(d, Embedding)
    case EmbeddingCompleted => d' == if d.status == VectorSync then d else Guarded(d, VectorSync)
    case VectorsIndexed(named) => d' == Synced(d, named)
    case Staged(id) =>
      && Adds(d, d', id) && d'.latest == (if d.latest.None? then Some(id) else d.latest)
      && d'.status == (if d.status == Ready then Ready else Uploaded)
    case RolledBack(source, id) =>
      && source in d.versions && Adds(d, d', id) && d'.latest == Some(id) && d'.status == Uploaded
    case Reingested => d' == d.(status := Uploaded)
  }

  /** A run: one more state than events. */
  ghost predicate RunOf(ds: seq<Doc>, es: seq<Event>) {
    |ds| == |es| + 1 && forall i :: 0 <= i < |es| ==> Next(ds[i], es[i], ds[i + 1])
  }

  /** The number of a version, below every number when it resolves to no row. */
  function Rank(d: Doc, id: Option<VersionId>): int {
    if Lookup(d, id).Some? then Lookup(d, id).value.number else -1
  }

  function Max(a: int, b: int): int {
    if a >= b then a else b
  }

  // ---------------------------------------------------------------------------------------------
  // Every run
  // ---------------------------------------------------------------------------------------------

  /** A completion takes the promoted rank to the larger of the two. */
  lemma SyncedRank(d: Doc, named: Option<VersionId>)
    ensures var d' := Synced(d, named); Rank(d', d'.latest) == Max(Rank(d, d.latest), Rank(d, named))
    ensures forall id: Option<VersionId> :: Rank(Synced(d, named), id) == Rank(d, id)
  {
  }

  lemma StepKeepsRank(d: Doc, e: Event, d': Doc)
    requires Next(d, e, d')
    ensures Rank(d, d.latest) <= Rank(d', d'.latest)
    ensures d.status == Ready ==> (d'.status == Ready <==> !e.RolledBack? && !e.Reingested?)
    ensures d.latest.Some? ==> d'.latest.Some?
  {
    if e.VectorsIndexed? { SyncedRank(d, e.target); }
  }

  /** Over every run, whatever the order and repetition of events, the promoted version number never decreases, and a
      READY document stays READY until a rollback or a re-ingestion. */
  lemma {:induction false} PromotionIsMonotone(ds: seq<Doc>, es: seq<Event>, i: nat, j: nat)
    requires RunOf(ds, es) && i <= j < |ds|
    ensures Rank(ds[i], ds[i].latest) <= Rank(ds[j], ds[j].latest)
    ensures ds[i].status == Ready && (forall k :: i <= k < j ==> !es[k].RolledBack? && !es[k].Reingested?)
            ==> ds[j].status == Ready
    decreases j
  {
    if i < j {
      PromotionIsMonotone(ds, es, i, j - 1);
      StepKeepsRank(ds[j - 1], es[j - 1], ds[j]);
    }
  }

  /** Retrieval serves exactly the promoted version. */
  ghost predicate ServesPromoted(d: Doc) {
    forall v :: v in d.versions ==> (d.versions[v].activeVector <==> d.latest == Some(v))
  }

  /** The steps that leave a new, still inactive version promoted. */
  predicate PromotesUnserved(d: Doc, e: Event) {
    e.RolledBack? || (e.Staged? && d.latest.None?)
  }

  /** Exactly which steps take a document away from serving its promoted version. */
  lemma ServesPromotedIff(d: Doc, e: Event, d': Doc)
    requires Next(d, e, d') && ServesPromoted(d)
    ensures ServesPromoted(d') <==> !PromotesUnserved(d, e)
  {
    if PromotesUnserved(d, e) {
      var id := if e.RolledBack? then e.id else d'.latest.value;
      assert id in d'.versions && d'.latest == Some(id) && !d'.versions[id].activeVector;
    }
  }

  lemma {:induction false} OnlyPromotedIsServed(ds: seq<Doc>, es: seq<Event>, j: nat)
    requires RunOf(ds, es) && j < |ds| && ServesPromoted(ds[0])
    requires forall k :: 0 <= k < j ==> !PromotesUnserved(ds[k], es[k])
    ensures ServesPromoted(ds[j])
    decreases j
  {
    if j > 0 {
      OnlyPromotedIsServed(ds, es, j - 1);
      ServesPromotedIff(ds[j - 1], es[j - 1], ds[j]);
    }
  }

  /** At most one version is served, none without a promotion, and a READY document serves the promoted one. */
  ghost predicate ServesWell(d: Doc) {
    && (forall v, w :: v in d.versions && w in d.versions && d.versions[v].activeVector && d.versions[w].activeVector
                       ==> v == w)
    && (d.latest.None? ==> forall v :: v in d.versions ==> !d.versions[v].activeVector)
    && (d.status == Ready ==> ServesPromoted(d))
  }

  lemma ServesWellIff(d: Doc, e: Event, d': Doc)
    requires Next(d, e, d') && ServesWell(d)
    ensures ServesWell(d') <==> !(e.Staged? && d.status == Ready && d.latest.None?)
  {
    if d.status == Ready { ServesPromotedIff(d, e, d'); }
  }

  /** Rollbacks and re-ingestions included: over every run of a document that has a promoted version, at most one version
      is served at any moment, and whenever the document is READY it is exactly the promoted one. */
  lemma {:induction false} ReadyServesPromoted(ds: seq<Doc>, es: seq<Event>, j: nat)
    requires RunOf(ds, es) && j < |ds| && ServesWell(ds[0]) && ds[0].latest.Some?
    ensures ServesWell(ds[j]) && ds[j].latest.Some?
    decreases j
  {
    if j > 0 {
      ReadyServesPromoted(ds, es, j - 1);
      StepKeepsRank(ds[j - 1], es[j - 1], ds[j]);
      ServesWellIff(ds[j - 1], es[j - 1], ds[j]);
    }
  }

  /** Between a rollback and the completion of its clone the version served before stays served; the completion makes the
      clone the only one served. A completion for an existing version that comes late in between stops all service
      exactly if it is for the version served, which is then neither served nor promoted. */
  lemma RollbackServes(d: Doc, target: VersionId, id: VersionId, d': Doc, p: VersionId, x: VersionId)
    requires Next(d, RolledBack(target, id), d') && ServesPromoted(d) && d.latest == Some(p) && p in d.versions
    requires x in d.versions
    ensures forall v :: v in d'.versions ==> (d'.versions[v].activeVector <==> v == p)
    ensures var e := Synced(d', Some(id)); e.status == Ready && e.latest == Some(id) && ServesPromoted(e)
    ensures var e := Synced(d', Some(x));
            && e.latest == Some(id) && e.status == Uploaded
            && ((forall v :: v in e.versions ==> !e.versions[v].activeVector) <==> x == p)
  {
    var e := Synced(d', Some(x));
    assert d'.versions[x].number < d'.versions[id].number;
    if x != p { assert e.versions[p].activeVector; }
  }

  /** A completion that is not older than the promoted version makes the served version the promoted one, whatever was
      served before; an older one changes neither the promotion nor the status and at most stops serving itself. */
  lemma PromotionServes(d: Doc, named: Option<VersionId>)
    requires Target(d, named).Some?
    ensures var d' := Synced(d, named);
            if Rank(d, d.latest) <= Rank(d, Target(d, named)) then
              d'.latest == Target(d, named) && d'.status == Ready && ServesPromoted(d')
            else
              && d'.latest == d.latest && d'.status == d.status && d'.versions.Keys == d.versions.Keys
              && forall v :: v in d.versions ==>
                   d'.versions[v].activeVector == (d.versions[v].activeVector && Some(v) != named)
  {
  }

  // ---------------------------------------------------------------------------------------------
  // Version numbers
  // ---------------------------------------------------------------------------------------------

  /** Version numbers are distinct within a document. */
  ghost predicate DistinctNumbers(d: Doc) {
    forall v, w :: v in d.versions && w in d.versions && d.versions[v].number == d.versions[w].number ==> v == w
  }

  ghost predicate HasNumber(d: Doc, n: nat) {
    exists v :: v in d.versions && d.versions[v].number == n
  }

  /** The numbers are 1, 2, 3 and so on, each used once. */
  ghost predicate Numbered(d: Doc) {
    && DistinctNumbers(d)
    && (forall v :: v in d.versions ==> 1 <= d.versions[v].number <= |d.versions|)
    && forall n: nat :: 1 <= n <= |d.versions| ==> HasNumber(d, n)
  }

  lemma NumberedStep(d: Doc, e: Event, d': Doc)
    requires Next(d, e, d') && Numbered(d)
    ensures Numbered(d')
  {
    if e.Staged? || e.RolledBack? {
      NumberedAdds(d, d', e.id);
    } else {
      SameNumbers(d, e, d');
      forall n: nat | 1 <= n <= |d'.versions| ensures HasNumber(d', n) {
        assert HasNumber(d, n);
        var v :| v in d.versions && d.versions[v].number == n;
        assert v in d'.versions && d'.versions[v].number == n;
      }
    }
  }

  lemma SameNumbers(d: Doc, e: Event, d': Doc)
    requires Next(d, e, d') && !e.Staged? && !e.RolledBack?
    ensures d'.versions.Keys == d.versions.Keys && |d'.versions| == |d.versions|
    ensures forall v :: v in d.versions ==> d'.versions[v].number == d.versions[v].number
  {
    assert d'.versions.Keys == d.versions.Keys;
    assert |d'.versions| == |d'.versions.Keys| == |d.versions.Keys| == |d.versions|;
  }

  lemma NumberedAdds(d: Doc, d': Doc, id: VersionId)
    requires Adds(d, d', id) && Numbered(d)
    ensures Numbered(d')
  {
    var n, top := |d.versions|, d'.versions[id].number;
    assert d'.versions.Keys == d.versions.Keys + {id};
    assert |d'.versions| == |d'.versions.Keys| && |d.versions| == |d.versions.Keys|;
    assert n > 0 ==> HasNumber(d, n);
    assert top == n + 1;
    forall k: nat | 1 <= k <= n + 1 ensures HasNumber(d', k) {
      if k <= n {
        assert HasNumber(d, k);
        var v :| v in d.versions && d.versions[v].number == k;
        assert v in d'.versions && d'.versions[v].number == k;
      }
    }
  }

  /** Whatever is staged, rolled back and completed, the versions of a document are numbered in the order they were added,
      from 1 on and without gaps. */
  lemma {:induction false} NumbersHaveNoGaps(ds: seq<Doc>, es: seq<Event>, j: nat)
    requires RunOf(ds, es) && j < |ds| && Numbered(ds[0])
    ensures Numbered(ds[j])
    decreases j
  {
    if j > 0 {
      NumbersHaveNoGaps(ds, es, j - 1);
      NumberedStep(ds[j - 1], es[j - 1], ds[j]);
    }
  }

  // ---------------------------------------------------------------------------------------------
  // The stages
  // ---------------------------------------------------------------------------------------------

  /** The stages of the pipeline in their order; a document at any other status has not entered it. */
  function Stage(s: Status): nat {
    match s
    case Uploaded => 1
    case Chunking => 2
    case Embedding => 3
    case VectorSync => 4
    case Ready => 5
    case _ => 0
  }

  /** The stage of a document that is not READY is that of the last event it has seen, whatever the order, completions of
      superseded versions apart, which leave the stage alone. */
  lemma {:induction false} StageIsLastEvents(ds: seq<Doc>, es: seq<Event>, k: nat, j: nat)
    requires RunOf(ds, es) && k < j < |ds| && !es[k].VectorsIndexed? && ds[j].status != Ready
    requires forall i :: k < i < j ==> es[i].VectorsIndexed?
    ensures match es[k]
            case DocumentProcessed => ds[j].status == Chunking
            case ChunkingCompleted => ds[j].status == Embedding
            case EmbeddingCompleted => ds[j].status == VectorSync
            case _ => ds[j].status == Uploaded
    decreases j
  {
    assert Next(ds[j - 1], es[j - 1], ds[j]);
    if k < j - 1 {
      SupersededKeepsStatus(ds[j - 1], es[j - 1].target, ds[j]);
      StageIsLastEvents(ds, es, k, j - 1);
    }
  }

  lemma SupersededKeepsStatus(d: Doc, named: Option<VersionId>, d': Doc)
    requires d' == Synced(d, named) && d'.status != Ready
    ensures d'.status == d.status
  {
  }

  /** In their order the events take a document that is not READY up the stages one by one, and to READY at the end unless
      the version completed has been superseded. */
  lemma PipelineClimbs(ds: seq<Doc>, es: seq<Event>, named: Option<VersionId>)
    requires es == [DocumentProcessed, ChunkingCompleted, EmbeddingCompleted, VectorsIndexed(named)] && RunOf(ds, es)
    requires ds[0].status != Ready
    ensures Stage(ds[1].status) == 2 && Stage(ds[2].status) == 3 && Stage(ds[3].status) == 4
    ensures Stage(ds[4].status) == if Rank(ds[0], Target(ds[0], named)) >= Rank(ds[0], ds[0].latest) then 5 else 4
  {
    assert Next(ds[0], es[0], ds[1]) && Next(ds[1], es[1], ds[2]) && Next(ds[2], es[2], ds[3]) && Next(ds[3], es[3], ds[4]);
  }

  // ---------------------------------------------------------------------------------------------
  // The order of completions does not matter
  // ---------------------------------------------------------------------------------------------

  function AllSynced(d: Doc, targets: seq<Option<VersionId>>): Doc {
    if targets == [] then d else Synced(AllSynced(d, targets[..|targets| - 1]), targets[|targets| - 1])
  }

  /** `m` is the largest of the starting rank and the ranks of the targets. */
  ghost predicate IsPeak(d: Doc, targets: seq<Option<VersionId>>, m: int) {
    && Rank(d, d.latest) <= m
    && (forall t: Option<VersionId> :: t in targets ==> Rank(d, t) <= m)
    && (m == Rank(d, d.latest) || exists t: Option<VersionId> :: t in targets && m == Rank(d, t))
  }

  lemma {:induction false} FinalRankIsPeak(d: Doc, targets: seq<Option<VersionId>>)
    ensures var d' := AllSynced(d, targets); IsPeak(d, targets, Rank(d', d'.latest))
    ensures forall id: Option<VersionId> :: Rank(AllSynced(d, targets), id) == Rank(d, id)
    ensures AllSynced(d, targets).versions.Keys == d.versions.Keys
  {
    if targets != [] {
      var init, last := targets[..|targets| - 1], targets[|targets| - 1];
      FinalRankIsPeak(d, init);
      SyncedRank(AllSynced(d, init), last);
      assert forall t: Option<VersionId> :: t in targets <==> t in init || t == last;
    }
  }

  ghost predicate SameTargets(s: seq<Option<VersionId>>, t: seq<Option<VersionId>>) {
    forall x: Option<VersionId> :: x in s <==> x in t
  }

  /** Every order, and every repetition, of the same completions promotes the same version number; and the same version,
      unless no completion and no earlier promotion names an existing one. */
  lemma OrderDoesNotMatter(d: Doc, s: seq<Option<VersionId>>, t: seq<Option<VersionId>>)
    requires SameTargets(s, t)
    ensures var a, b := AllSynced(d, s), AllSynced(d, t);
            && Rank(a, a.latest) == Rank(b, b.latest)
            && (DistinctNumbers(d) && Rank(a, a.latest) >= 0 ==> a.latest == b.latest)
  {
    FinalRankIsPeak(d, s);
    FinalRankIsPeak(d, t);
    var a, b := AllSynced(d, s), AllSynced(d, t);
    assert Rank(a, a.latest) == Rank(d, a.latest) && Rank(b, b.latest) == Rank(d, b.latest);
  }

  /** A completion that names a version of rank `m`. */
  predicate Top(d: Doc, t: Option<VersionId>, m: int) {
    t.Some? && Rank(d, t) == m
  }

  function LastTop(d: Doc, targets: seq<Option<VersionId>>, m: int): Option<VersionId> {
    if targets == [] then d.latest
    else if Top(d, targets[|targets| - 1], m) then targets[|targets| - 1]
    else LastTop(d, targets[..|targets| - 1], m)
  }

  /** The version promoted in the end is the last one named at the peak, or the starting one when none is. */
  lemma {:induction false} FinalIsLastTop(d: Doc, targets: seq<Option<VersionId>>, m: int)
    requires IsPeak(d, targets, m)
    ensures AllSynced(d, targets).latest == LastTop(d, targets, m)
  {
    if targets != [] {
      var init, last := targets[..|targets| - 1], targets[|targets| - 1];
      assert forall t: Option<VersionId> :: t in targets <==> t in init || t == last;
      FinalRankIsPeak(d, init);
      if !Top(d, last, m) { FinalIsLastTop(d, init, m); }
    }
  }

  lemma {:induction false} LastTopIsNamed(d: Doc, targets: seq<Option<VersionId>>, m: int, x: Option<VersionId>)
    requires x in targets && Top(d, x, m)
    ensures LastTop(d, targets, m) in targets && Top(d, LastTop(d, targets, m), m)
  {
    if !Top(d, targets[|targets| - 1], m) { LastTopIsNamed(d, targets[..|targets| - 1], m, x); }
  }

  lemma {:induction false} NoTopNamed(d: Doc, targets: seq<Option<VersionId>>, m: int)
    requires forall x :: x in targets ==> !Top(d, x, m)
    ensures LastTop(d, targets, m) == d.latest
  {
    if targets != [] { NoTopNamed(d, targets[..|targets| - 1], m); }
  }

  /** At most one version is named at the peak. */
  ghost predicate OneTop(d: Doc, targets: seq<Option<VersionId>>, m: int) {
    forall x, y :: x in targets && y in targets && Top(d, x, m) && Top(d, y, m) ==> x == y
  }

  lemma OneTopOneWinner(d: Doc, s: seq<Option<VersionId>>, t: seq<Option<VersionId>>, m: int)
    requires IsPeak(d, s, m) && SameTargets(s, t) && OneTop(d, s, m)
    ensures AllSynced(d, t).latest == AllSynced(d, s).latest
  {
    FinalIsLastTop(d, s, m);
    FinalIsLastTop(d, t, m);
    if x :| x in s && Top(d, x, m) {
      LastTopIsNamed(d, s, m, x);
      LastTopIsNamed(d, t, m, x);
    } else {
      NoTopNamed(d, s, m);
      NoTopNamed(d, t, m);
    }
  }

  /** Repeating a completion at the peak promotes the version it names. */
  lemma RepeatedTopWins(d: Doc, s: seq<Option<VersionId>>, m: int, x: Option<VersionId>)
    requires IsPeak(d, s, m) && x in s && Top(d, x, m)
    ensures SameTargets(s, s + [x]) && AllSynced(d, s + [x]).latest == x
  {
    var again := s + [x];
    assert SameTargets(s, again);
    FinalIsLastTop(d, again, m);
    assert again[|again| - 1] == x;
  }

  /** Every order, and every repetition, of the same completions promotes the same version exactly when they name at
      most one version at the peak, the largest of the starting number and the named numbers. */
  lemma SameVersionIff(d: Doc, s: seq<Option<VersionId>>, m: int)
    requires IsPeak(d, s, m)
    ensures (forall t | SameTargets(s, t) :: AllSynced(d, t).latest == AllSynced(d, s).latest) <==> OneTop(d, s, m)
  {
    if OneTop(d, s, m) {
      forall t | SameTargets(s, t) ensures AllSynced(d, t).latest == AllSynced(d, s).latest {
        OneTopOneWinner(d, s, t, m);
      }
    } else {
      var x, y :| x in s && y in s && Top(d, x, m) && Top(d, y, m) && x != y;
      RepeatedTopWins(d, s, m, x);
      RepeatedTopWins(d, s, m, y);
    }
  }

  /** Unknown versions share the lowest rank: on a document with no promoted version, a completion for one is promoted
      as it stands, so two such completions leave whichever came last. */
  lemma UnknownVersionsArePromoted(d: Doc, x: VersionId, y: VersionId)
    requires Lookup(d, d.latest).None? && x !in d.versions && y !in d.versions
    ensures AllSynced(d, [Some(x), Some(y)]).latest == Some(y)
    ensures AllSynced(d, [Some(y), Some(x)]).latest == Some(x)
    ensures var served := AllSynced(d, [Some(x), Some(y)]).versions; forall v :: v in served ==> !served[v].activeVector
  {
    assert [Some(x), Some(y)][..1] == [Some(x)] && [Some(y), Some(x)][..1] == [Some(y)];
    assert [Some(x)][..0] == [] && [Some(y)][..0] == [];
    assert AllSynced(d, [Some(x)]) == Synced(d, Some(x)) && AllSynced(d, [Some(y)]) == Synced(d, Some(y));
  }

  // ---------------------------------------------------------------------------------------------
  // The handlers
  // ---------------------------------------------------------------------------------------------

  class Document {
    var status: Status
    var latest: Option<VersionId>
    var versions: map<VersionId, Version>
    var dispatched: nat

    ghost function Row(): Doc
      reads this
    {
      Doc(status, latest, versions)
    }

    /** `handle_document_processed` after a successful dispatch. */
    method HandleDocumentProcessed()
      modifies this`status, this`dispatched
      ensures Next(old(Row()), DocumentProcessed, Row()) && dispatched == old(dispatched) + 1
    {
      dispatched := dispatched + 1;
      if status != Ready { status := Chunking; }
    }

    /** `handle_chunking_completed` after a successful dispatch. */
    method HandleChunkingCompleted()
      modifies this`status, this`dispatched
      ensures Next(old(Row()), ChunkingCompleted, Row()) && dispatched == old(dispatched) + 1
    {
      dispatched := dispatched + 1;
      if status != Ready { status := Embedding; }
    }

    /** `handle_embedding_completed`: a duplicate that finds VECTOR_SYNC dispatches nothing. */
    method HandleEmbeddingCompleted()
      modifies this`status, this`dispatched
      ensures Next(old(Row()), EmbeddingCompleted, Row())
      ensures dispatched == old(dispatched) + if old(status) == VectorSync then 0 else 1
    {
      if status == VectorSync {
        return;
      }
      dispatched := dispatched + 1;
      if status != Ready { status := VectorSync; }
    }

    method HighestNumber() returns (n: nat)
      ensures IsHighest(versions, n)
    {
      n := 0;
      var left := versions.Keys;
      while left != {}
        invariant left <= versions.Keys
        invariant forall v :: v in versions && v !in left ==> versions[v].number <= n
        invariant n == 0 || exists v :: v in versions && versions[v].number == n
        decreases left
      {
        var v :| v in left;
        if versions[v].number > n { n := versions[v].number; }
        left := left - {v};
      }
    }

    /** `upload_new_version` once the file is stored. */
    method UploadNewVersion(id: VersionId)
      requires id !in versions && latest != Some(id)
      modifies this
      ensures Next(old(Row()), Staged(id), Row()) && dispatched == old(dispatched) + 1
    {
      var n := HighestNumber();
      versions := versions[id := Version(n + 1, false)];
      if latest.None? { latest := Some(id); }
      if status != Ready { status := Uploaded; }
      dispatched := dispatched + 1;
    }

    /** `reingest_document`. */
    method Reingest()
      modifies this`status, this`dispatched
      ensures Next(old(Row()), Reingested, Row()) && dispatched == old(dispatched) + 1
    {
      status := Uploaded;
      dispatched := dispatched + 1;
    }

    /** `rollback_to_version`; an unknown target is refused. */
    method RollbackToVersion(target: VersionId, id: VersionId) returns (ok: bool)
      requires id !in versions && latest != Some(id)
      modifies this
      ensures ok <==> target in old(versions)
      ensures ok ==> Next(old(Row()), RolledBack(target, id), Row()) && dispatched == old(dispatched) + 1
      ensures !ok ==> Row() == old(Row()) && dispatched == old(dispatched)
    {
      if target !in versions {
        return false;
      }
      var n := HighestNumber();
      versions := versions[id := Version(n + 1, false)];
      latest, status := Some(id), Uploaded;
      dispatched := dispatched + 1;
      return true;
    }

    /** `set_active_version`. */
    method SetActiveVersion(id: VersionId)
      modifies this`versions
      ensures versions == Activated(old(versions), id)
    {
      versions := map v | v in versions :: versions[v].(activeVector := false);
      if id in versions { versions := versions[id := versions[id].(activeVector := true)]; }
    }

    /** `handle_vector_sync_completed`, up to its first commit. */
    method HandleVectorsIndexed(named: Option<VersionId>)
      modifies this`status, this`latest, this`versions
      ensures Next(old(Row()), VectorsIndexed(named), Row())
    {
      var target := if named.Some? then named else latest;
      if target.None? {
        status := Ready;
        return;
      }
      var candidate := if target.value in versions then Some(versions[target.value]) else None;
      var current := if latest.Some? && latest.value in versions then Some(versions[latest.value]) else None;
      if current.None? || (candidate.Some? && candidate.value.number >= current.value.number) {
        SetActiveVersion(target.value);
        latest := target;
        status := Ready;
      } else if candidate.Some? {
        versions := versions[target.value := candidate.value.(activeVector := false)];
      }
    }
  }
}
