/** Reciprocal Rank Fusion of a dense and a sparse candidate list. Scores are real numbers. */
module RankFusion {
  import opened Prelude

  type ChunkId = nat

  /** Ranks count from 1. */
  type Rank = r: nat | r >= 1 witness 1

  datatype Source = Dense | Sparse

  datatype Candidate = Candidate(chunk: ChunkId, rank: Rank, content: string)

  datatype Evidence = Evidence(chunk: ChunkId, content: string, denseRank: Option<Rank>, sparseRank: Option<Rank>,
                               score: real, rank: nat, matched: seq<Source>)

  // ---------------------------------------------------------------------------------------------
  // What fusion means
  // ---------------------------------------------------------------------------------------------

  function Share(k: nat, rank: Rank): real {
    1.0 / ((k + rank) as real)
  }

  /** What one list contributes to a chunk: a share for every time it appears. */
  ghost function Contribution(list: seq<Candidate>, k: nat, c: ChunkId): real {
    if list == [] then 0.0
    else
      var n := |list| - 1;
      Contribution(list[..n], k, c) + if list[n].chunk == c then Share(k, list[n].rank) else 0.0
  }

  ghost function Score(dense: seq<Candidate>, sparse: seq<Candidate>, k: nat, c: ChunkId): real {
    Contribution(dense, k, c) + Contribution(sparse, k, c)
  }

  /** The chunks in order of first appearance, as a dict keeps its keys. */
  ghost function FirstSeen(order: seq<ChunkId>, list: seq<Candidate>): seq<ChunkId> {
    if list == [] then order
    else
      var sofar, c := FirstSeen(order, list[..|list| - 1]), list[|list| - 1].chunk;
      if c in sofar then sofar else sofar + [c]
  }

  predicate Listed(list: seq<Candidate>, c: ChunkId) {
    exists i :: 0 <= i < |list| && list[i].chunk == c
  }

  /** The rank of a chunk in a list; the last one if it appears more than once. */
  ghost function RankIn(list: seq<Candidate>, c: ChunkId): Option<Rank> {
    if list == [] then None
    else if list[|list| - 1].chunk == c then Some(list[|list| - 1].rank)
    else RankIn(list[..|list| - 1], c)
  }

  /** The content under which a chunk first appears. */
  ghost function ContentIn(list: seq<Candidate>, c: ChunkId): Option<string> {
    if list == [] then None
    else if ContentIn(list[..|list| - 1], c).Some? then ContentIn(list[..|list| - 1], c)
    else if list[|list| - 1].chunk == c then Some(list[|list| - 1].content)
    else None
  }

  ghost function MatchedBy(dense: seq<Candidate>, sparse: seq<Candidate>, c: ChunkId): seq<Source> {
    (if Listed(dense, c) then [Dense] else []) + if Listed(sparse, c) then [Sparse] else []
  }

  /** `round(x, 6)`: the nearest multiple of a millionth, the even one of two. */
  function Rounded(x: real): (r: real)
    ensures r - 0.0000005 <= x <= r + 0.0000005
  {
    var y := x * 1000000.0;
    var low := y.Floor;
    var rest := y - low as real;
    (if rest < 0.5 || (rest == 0.5 && low % 2 == 0) then low else low + 1) as real / 1000000.0
  }

  lemma RoundedIsMonotone(x: real, y: real)
    requires x <= y
    ensures Rounded(x) <= Rounded(y)
  {
    var a, b := x * 1000000.0, y * 1000000.0;
    assert a.Floor <= b.Floor;
  }

  ghost predicate Precedes(order: seq<ChunkId>, a: ChunkId, b: ChunkId) {
    exists p, q :: 0 <= p < q < |order| && order[p] == a && order[q] == b
  }

  /** The first of two results scores more, or as much and was seen earlier. */
  ghost predicate Above(order: seq<ChunkId>, scores: map<ChunkId, real>, a: ChunkId, b: ChunkId)
    requires a in scores && b in scores
  {
    scores[a] > scores[b] || (scores[a] == scores[b] && Precedes(order, a, b))
  }

  ghost predicate Scored(order: seq<ChunkId>, scores: map<ChunkId, real>) {
    forall i :: 0 <= i < |order| ==> order[i] in scores
  }

  /** What rounding gives: a whole number of millionths, the nearest, and the even one of two that are as near. */
  lemma RoundedIs(x: real) returns (n: int)
    ensures Rounded(x) == n as real / 1000000.0
    ensures n as real - 0.5 <= x * 1000000.0 <= n as real + 0.5
    ensures x * 1000000.0 == n as real - 0.5 || x * 1000000.0 == n as real + 0.5 ==> n % 2 == 0
  {
    var y := x * 1000000.0;
    var low := y.Floor;
    var rest := y - low as real;
    n := if rest < 0.5 || (rest == 0.5 && low % 2 == 0) then low else low + 1;
  }

  // ---------------------------------------------------------------------------------------------
  // The stable descending sort
  // ---------------------------------------------------------------------------------------------

  function Insert(s: seq<ChunkId>, c: ChunkId, scores: map<ChunkId, real>): (r: seq<ChunkId>)
    requires c in scores && forall i :: 0 <= i < |s| ==> s[i] in scores
  {
    if s == [] || scores[s[|s| - 1]] >= scores[c] then s + [c]
    else Insert(s[..|s| - 1], c, scores) + [s[|s| - 1]]
  }

  /** `sorted(scores.items(), key=score, reverse=True)`: descending, equal scores in their original order. */
  function SortedByScore(order: seq<ChunkId>, scores: map<ChunkId, real>): (r: seq<ChunkId>)
    requires Scored(order, scores)
    ensures |r| == |order| && multiset(r) == multiset(order) && Scored(r, scores)
  {
    if order == [] then []
    else
      var rest := SortedByScore(order[..|order| - 1], scores);
      var c := order[|order| - 1];
      InsertPermutes(rest, c, scores);
      assert order == order[..|order| - 1] + [c];
      Insert(rest, c, scores)
  }

  lemma {:induction false} InsertPermutes(s: seq<ChunkId>, c: ChunkId, scores: map<ChunkId, real>)
    requires c in scores && Scored(s, scores)
    ensures var r := Insert(s, c, scores);
            |r| == |s| + 1 && multiset(r) == multiset(s) + multiset{c} && Scored(r, scores)
  {
    if s != [] && scores[s[|s| - 1]] < scores[c] {
      InsertPermutes(s[..|s| - 1], c, scores);
      assert s == s[..|s| - 1] + [s[|s| - 1]];
    }
  }

  ghost predicate Ranked(order: seq<ChunkId>, scores: map<ChunkId, real>, r: seq<ChunkId>)
    requires Scored(r, scores)
  {
    forall i, j :: 0 <= i < j < |r| ==> Above(order, scores, r[i], r[j])
  }

  lemma PrecedesLonger(order: seq<ChunkId>, c: ChunkId, a: ChunkId, b: ChunkId)
    ensures Precedes(order, a, b) ==> Precedes(order + [c], a, b)
    ensures a in order ==> Precedes(order + [c], a, c)
  {
    var longer := order + [c];
    if Precedes(order, a, b) {
      var p, q :| 0 <= p < q < |order| && order[p] == a && order[q] == b;
      assert longer[p] == a && longer[q] == b;
    }
    if a in order {
      var p :| 0 <= p < |order| && order[p] == a;
      assert longer[p] == a && longer[|order|] == c;
    }
  }

  /** Inserting the newest chunk below everything that scores at least as much keeps the ranking. */
  lemma {:induction false} InsertRanks(order: seq<ChunkId>, s: seq<ChunkId>, c: ChunkId, scores: map<ChunkId, real>)
    requires c in scores && Scored(s, scores) && Ranked(order, scores, s)
    requires forall i :: 0 <= i < |s| ==> s[i] in order
    ensures Scored(Insert(s, c, scores), scores) && Ranked(order + [c], scores, Insert(s, c, scores))
  {
    InsertPermutes(s, c, scores);
    var r := Insert(s, c, scores);
    if s == [] {
    } else if scores[s[|s| - 1]] >= scores[c] {
      forall i, j | 0 <= i < j < |r| ensures Above(order + [c], scores, r[i], r[j]) {
        PrecedesLonger(order, c, r[i], r[j]);
        if j == |s| {
          assert i < |s| - 1 ==> Above(order, scores, s[i], s[|s| - 1]);
        } else {
          assert Above(order, scores, s[i], s[j]);
        }
      }
    } else {
      var init, last := s[..|s| - 1], s[|s| - 1];
      InsertRanks(order, init, c, scores);
      InsertPermutes(init, c, scores);
      forall i, j | 0 <= i < j < |r| ensures Above(order + [c], scores, r[i], r[j]) {
        if j == |r| - 1 {
          assert r[i] in multiset(Insert(init, c, scores));
          PrecedesLonger(order, c, r[i], last);
          if r[i] != c {
            var p :| 0 <= p < |init| && init[p] == r[i];
            assert Above(order, scores, s[p], s[|s| - 1]);
          }
        }
      }
    }
  }

  lemma {:induction false} SortRanks(order: seq<ChunkId>, scores: map<ChunkId, real>)
    requires Scored(order, scores)
    ensures Ranked(order, scores, SortedByScore(order, scores))
  {
    if order != [] {
      var init, c := order[..|order| - 1], order[|order| - 1];
      SortRanks(init, scores);
      var s := SortedByScore(init, scores);
      forall i | 0 <= i < |s| ensures s[i] in init { assert s[i] in multiset(s); }
      InsertRanks(init, s, c, scores);
      assert init + [c] == order;
    }
  }

  // ---------------------------------------------------------------------------------------------
  // The fusion engine
  // ---------------------------------------------------------------------------------------------

  /** What `merged_map` holds for a chunk. */
  datatype Entry = Entry(content: string, denseRank: Option<Rank>, sparseRank: Option<Rank>, score: real,
                         matched: seq<Source>)

  /** `merged_map`, with the keys in insertion order. */
  datatype Merged = Merged(order: seq<ChunkId>, entries: map<ChunkId, Entry>)

  function First(item: Candidate, source: Source, share: real): Entry {
    match source
    case Dense => Entry(item.content, Some(item.rank), None, share, [Dense])
    case Sparse => Entry(item.content, None, Some(item.rank), share, [Sparse])
  }

  function Again(e: Entry, item: Candidate, source: Source, share: real): Entry {
    var matched := if source in e.matched then e.matched else e.matched + [source];
    match source
    case Dense => e.(denseRank := Some(item.rank), score := e.score + share, matched := matched)
    case Sparse => e.(sparseRank := Some(item.rank), score := e.score + share, matched := matched)
  }

  function Added(m: Merged, item: Candidate, source: Source, k: nat): Merged {
    var c, share := item.chunk, Share(k, item.rank);
    if c in m.entries then Merged(m.order, m.entries[c := Again(m.entries[c], item, source, share)])
    else Merged(m.order + [c], m.entries[c := First(item, source, share)])
  }

  /** The entry of a chunk, read off the two lists. */
  ghost function EntryOf(dense: seq<Candidate>, sparse: seq<Candidate>, k: nat, c: ChunkId): Entry {
    var content := if ContentIn(dense, c).Some? then ContentIn(dense, c) else ContentIn(sparse, c);
    Entry(if content.Some? then content.value else "", RankIn(dense, c), RankIn(sparse, c), Score(dense, sparse, k, c),
          MatchedBy(dense, sparse, c))
  }

  ghost predicate Holds(m: Merged, dense: seq<Candidate>, sparse: seq<Candidate>, k: nat) {
    && m.order == FirstSeen(FirstSeen([], dense), sparse) && NoDup(m.order)
    && (forall c :: c in m.order <==> c in m.entries)
    && (forall c :: c in m.entries <==> Listed(dense, c) || Listed(sparse, c))
    && forall c :: c in m.entries ==> m.entries[c] == EntryOf(dense, sparse, k, c)
  }

  lemma ListedSnoc(list: seq<Candidate>, item: Candidate, c: ChunkId)
    ensures Listed(list + [item], c) <==> Listed(list, c) || item.chunk == c
  {
    var longer := list + [item];
    if Listed(list, c) {
      var i :| 0 <= i < |list| && list[i].chunk == c;
      assert longer[i].chunk == c;
    }
    assert longer[|list|] == item;
    if Listed(longer, c) && item.chunk != c {
      var i :| 0 <= i < |longer| && longer[i].chunk == c;
      assert list[i].chunk == c;
    }
  }

  lemma ListSnoc(list: seq<Candidate>, item: Candidate, k: nat, c: ChunkId)
    ensures Contribution(list + [item], k, c)
            == Contribution(list, k, c) + if item.chunk == c then Share(k, item.rank) else 0.0
    ensures RankIn(list + [item], c) == if item.chunk == c then Some(item.rank) else RankIn(list, c)
    ensures ContentIn(list + [item], c)
            == if ContentIn(list, c).Some? then ContentIn(list, c)
               else if item.chunk == c then Some(item.content) else None
  {
    assert (list + [item])[..|list|] == list;
  }

  lemma {:induction false} ListedHas(list: seq<Candidate>, c: ChunkId)
    ensures Listed(list, c) <==> ContentIn(list, c).Some?
    ensures Listed(list, c) <==> RankIn(list, c).Some?
  {
    if list != [] {
      var init, last := list[..|list| - 1], list[|list| - 1];
      ListedHas(init, c);
      ListedSnoc(init, last, c);
      assert init + [last] == list;
    }
  }

  lemma FirstSeenSnoc(order: seq<ChunkId>, list: seq<Candidate>, item: Candidate)
    ensures FirstSeen(order, list + [item])
            == var sofar := FirstSeen(order, list); if item.chunk in sofar then sofar else sofar + [item.chunk]
  {
    assert (list + [item])[..|list|] == list;
  }

  lemma SparseEntry(dense: seq<Candidate>, sparse: seq<Candidate>, k: nat, item: Candidate, c: ChunkId)
    ensures item.chunk != c ==> EntryOf(dense, sparse + [item], k, c) == EntryOf(dense, sparse, k, c)
    ensures item.chunk == c ==>
              EntryOf(dense, sparse + [item], k, c)
              == if Listed(dense, c) || Listed(sparse, c)
                 then Again(EntryOf(dense, sparse, k, c), item, Sparse, Share(k, item.rank))
                 else First(item, Sparse, Share(k, item.rank))
  {
    ListSnoc(sparse, item, k, c);
    ListedSnoc(sparse, item, c);
    ListedHas(dense, c);
    ListedHas(sparse, c);
    if !Listed(dense, c) { AbsentContributesNothing(dense, k, c); }
    if !Listed(sparse, c) { AbsentContributesNothing(sparse, k, c); }
  }

  lemma DenseEntry(dense: seq<Candidate>, k: nat, item: Candidate, c: ChunkId)
    ensures item.chunk != c ==> EntryOf(dense + [item], [], k, c) == EntryOf(dense, [], k, c)
    ensures item.chunk == c ==>
              EntryOf(dense + [item], [], k, c)
              == if Listed(dense, c) then Again(EntryOf(dense, [], k, c), item, Dense, Share(k, item.rank))
                 else First(item, Dense, Share(k, item.rank))
  {
    ListSnoc(dense, item, k, c);
    ListedSnoc(dense, item, c);
    ListedHas(dense, c);
    if !Listed(dense, c) { AbsentContributesNothing(dense, k, c); }
  }

  lemma AddedSparse(m: Merged, dense: seq<Candidate>, sparse: seq<Candidate>, k: nat, item: Candidate)
    requires Holds(m, dense, sparse, k)
    ensures Holds(Added(m, item, Sparse, k), dense, sparse + [item], k)
  {
    FirstSeenSnoc(FirstSeen([], dense), sparse, item);
    forall c ensures Listed(sparse + [item], c) <==> Listed(sparse, c) || item.chunk == c { ListedSnoc(sparse, item, c); }
    forall c | c in Added(m, item, Sparse, k).entries
      ensures Added(m, item, Sparse, k).entries[c] == EntryOf(dense, sparse + [item], k, c)
    {
      SparseEntry(dense, sparse, k, item, c);
    }
  }

  lemma AddedDense(m: Merged, dense: seq<Candidate>, k: nat, item: Candidate)
    requires Holds(m, dense, [], k)
    ensures Holds(Added(m, item, Dense, k), dense + [item], [], k)
  {
    FirstSeenSnoc([], dense, item);
    forall c ensures Listed(dense + [item], c) <==> Listed(dense, c) || item.chunk == c { ListedSnoc(dense, item, c); }
    forall c | c in Added(m, item, Dense, k).entries
      ensures Added(m, item, Dense, k).entries[c] == EntryOf(dense + [item], [], k, c)
    {
      DenseEntry(dense, k, item, c);
    }
  }

  /** The body of both merging loops. */
  method Add(m: Merged, item: Candidate, source: Source, k: nat) returns (r: Merged)
    ensures r == Added(m, item, source, k)
  {
    var c, share := item.chunk, Share(k, item.rank);
    if c !in m.entries {
      r := Merged(m.order + [c], m.entries[c := First(item, source, share)]);
    } else {
      var e := m.entries[c];
      if source == Dense { e := e.(denseRank := Some(item.rank)); } else { e := e.(sparseRank := Some(item.rank)); }
      e := e.(score := e.score + share);
      if source !in e.matched { e := e.(matched := e.matched + [source]); }
      r := m.(entries := m.entries[c := e]);
    }
  }

  /** The dense loop, then the sparse one. */
  method Merge(dense: seq<Candidate>, sparse: seq<Candidate>, k: nat) returns (m: Merged)
    ensures Holds(m, dense, sparse, k)
  {
    m := Merged([], map[]);
    for i := 0 to |dense|
      invariant Holds(m, dense[..i], [], k)
    {
      AddedDense(m, dense[..i], k, dense[i]);
      assert dense[..i + 1] == dense[..i] + [dense[i]];
      m := Add(m, dense[i], Dense, k);
    }
    assert dense[..|dense|] == dense && sparse[..0] == [];
    for j := 0 to |sparse|
      invariant Holds(m, dense, sparse[..j], k)
    {
      AddedSparse(m, dense, sparse[..j], k, sparse[j]);
      assert sparse[..j + 1] == sparse[..j] + [sparse[j]];
      m := Add(m, sparse[j], Sparse, k);
    }
    assert sparse[..|sparse|] == sparse;
  }

  ghost predicate Presents(ranking: seq<ChunkId>, entries: map<ChunkId, Entry>, results: seq<Evidence>) {
    && |results| == |ranking|
    && forall j :: 0 <= j < |ranking| ==>
         ranking[j] in entries && results[j] == Shown(ranking[j], entries[ranking[j]], j + 1)
  }

  function Shown(c: ChunkId, e: Entry, rank: nat): Evidence {
    Evidence(c, e.content, e.denseRank, e.sparseRank, Rounded(e.score), rank, e.matched)
  }

  /** The result loop. */
  method Present(ranking: seq<ChunkId>, entries: map<ChunkId, Entry>) returns (results: seq<Evidence>)
    requires forall i :: 0 <= i < |ranking| ==> ranking[i] in entries
    ensures Presents(ranking, entries, results)
  {
    results := [];
    for i := 0 to |ranking|
      invariant Presents(ranking[..i], entries, results)
    {
      results := results + [Shown(ranking[i], entries[ranking[i]], i + 1)];
    }
    assert ranking[..|ranking|] == ranking;
  }

  ghost predicate Appears(results: seq<Evidence>, c: ChunkId) {
    exists i :: 0 <= i < |results| && results[i].chunk == c
  }

  /** The fused list: every chunk of either input once, best first by the exact score, ties in order of first appearance,
      ranks from 1, the score shown rounded. */
  ghost predicate IsFusion(dense: seq<Candidate>, sparse: seq<Candidate>, k: nat, results: seq<Evidence>) {
    && (forall c :: Listed(dense, c) || Listed(sparse, c) <==> Appears(results, c))
    && (forall i, j :: 0 <= i < j < |results| ==> results[i].chunk != results[j].chunk)
    && (forall i :: 0 <= i < |results| ==> results[i].rank == i + 1)
    && (forall i :: 0 <= i < |results| ==> results[i].score == Rounded(Score(dense, sparse, k, results[i].chunk)))
    && (forall i, j :: 0 <= i < j < |results| ==> Better(dense, sparse, k, results[i].chunk, results[j].chunk))
  }

  ghost predicate Better(dense: seq<Candidate>, sparse: seq<Candidate>, k: nat, c: ChunkId, d: ChunkId) {
    || Score(dense, sparse, k, c) > Score(dense, sparse, k, d)
    || (Score(dense, sparse, k, c) == Score(dense, sparse, k, d)
        && Precedes(FirstSeen(FirstSeen([], dense), sparse), c, d))
  }

  /** What a result shows besides: the content of the first list that has the chunk, its rank in each list, and every list
      it was found in. */
  ghost predicate ShowsSources(dense: seq<Candidate>, sparse: seq<Candidate>, r: Evidence) {
    && Some(r.content) == (if Listed(dense, r.chunk) then ContentIn(dense, r.chunk) else ContentIn(sparse, r.chunk))
    && r.denseRank == RankIn(dense, r.chunk) && r.sparseRank == RankIn(sparse, r.chunk)
    && r.matched == MatchedBy(dense, sparse, r.chunk)
  }

  /** `execute_rrf_fusion`. */
  method Fuse(dense: seq<Candidate>, sparse: seq<Candidate>, k: nat) returns (results: seq<Evidence>)
    ensures IsFusion(dense, sparse, k, results)
    ensures forall i :: 0 <= i < |results| ==> ShowsSources(dense, sparse, results[i])
  {
    var m := Merge(dense, sparse, k);
    var scores := map c | c in m.entries :: m.entries[c].score;
    var ranking := SortedByScore(m.order, scores);
    forall i | 0 <= i < |ranking| ensures ranking[i] in m.entries {
      assert ranking[i] in multiset(ranking);
    }
    results := Present(ranking, m.entries);
    SortRanks(m.order, scores);
    forall i | 0 <= i < |results| ensures ShowsSources(dense, sparse, results[i]) {
      ListedHas(dense, ranking[i]);
      ListedHas(sparse, ranking[i]);
    }
    RankingIsFusion(dense, sparse, k, m, scores, ranking, results);
  }

  lemma RankedChunks(order: seq<ChunkId>, ranking: seq<ChunkId>, entries: map<ChunkId, Entry>, results: seq<Evidence>,
                     c: ChunkId)
    requires multiset(ranking) == multiset(order) && Presents(ranking, entries, results)
    ensures Appears(results, c) <==> c in order
  {
    assert c in multiset(ranking) <==> c in multiset(order);
    if c in ranking {
      var i :| 0 <= i < |ranking| && ranking[i] == c;
      assert results[i].chunk == c;
    }
  }

  lemma RankedPair(dense: seq<Candidate>, sparse: seq<Candidate>, k: nat, order: seq<ChunkId>, scores: map<ChunkId, real>,
                   a: ChunkId, b: ChunkId)
    requires NoDup(order) && order == FirstSeen(FirstSeen([], dense), sparse)
    requires forall c :: c in scores ==> scores[c] == Score(dense, sparse, k, c)
    requires a in scores && b in scores && Above(order, scores, a, b)
    ensures a != b && Better(dense, sparse, k, a, b)
  {
  }

  lemma RankingIsFusion(dense: seq<Candidate>, sparse: seq<Candidate>, k: nat, m: Merged, scores: map<ChunkId, real>,
                        ranking: seq<ChunkId>, results: seq<Evidence>)
    requires Holds(m, dense, sparse, k) && Scored(m.order, scores)
    requires forall c :: c in scores <==> c in m.entries
    requires forall c :: c in scores ==> scores[c] == Score(dense, sparse, k, c)
    requires ranking == SortedByScore(m.order, scores) && Ranked(m.order, scores, ranking)
    requires Presents(ranking, m.entries, results)
    ensures IsFusion(dense, sparse, k, results)
  {
    forall c ensures Listed(dense, c) || Listed(sparse, c) <==> Appears(results, c) {
      RankedChunks(m.order, ranking, m.entries, results, c);
    }
    forall i, j | 0 <= i < j < |results|
      ensures Better(dense, sparse, k, results[i].chunk, results[j].chunk) && results[i].chunk != results[j].chunk
    {
      RankedPair(dense, sparse, k, m.order, scores, ranking[i], ranking[j]);
    }
  }

  /** The scores shown never increase down the list, though rounding may make equal what is not. */
  lemma ShownScoresDescend(dense: seq<Candidate>, sparse: seq<Candidate>, k: nat, r: seq<Evidence>, i: nat, j: nat)
    requires IsFusion(dense, sparse, k, r) && i <= j < |r|
    ensures r[i].score >= r[j].score
  {
    if i < j {
      assert Better(dense, sparse, k, r[i].chunk, r[j].chunk);
      RoundedIsMonotone(Score(dense, sparse, k, r[j].chunk), Score(dense, sparse, k, r[i].chunk));
    }
  }

  // ---------------------------------------------------------------------------------------------
  // What the scores promise
  // ---------------------------------------------------------------------------------------------

  ghost predicate DistinctChunks(list: seq<Candidate>) {
    forall i, j :: 0 <= i < j < |list| ==> list[i].chunk != list[j].chunk
  }

  lemma {:induction false} AbsentContributesNothing(list: seq<Candidate>, k: nat, c: ChunkId)
    requires !Listed(list, c)
    ensures Contribution(list, k, c) == 0.0
  {
    if list != [] {
      assert forall i :: 0 <= i < |list| - 1 ==> list[..|list| - 1][i] == list[i];
      AbsentContributesNothing(list[..|list| - 1], k, c);
    }
  }

  lemma {:induction false} PresentContributesShare(list: seq<Candidate>, k: nat, p: nat)
    requires DistinctChunks(list) && p < |list|
    ensures Contribution(list, k, list[p].chunk) == Share(k, list[p].rank)
  {
    var init := list[..|list| - 1];
    if p == |list| - 1 {
      AbsentContributesNothing(init, k, list[p].chunk);
    } else {
      PresentContributesShare(init, k, p);
    }
  }

  lemma ShareShrinks(k: nat, p: Rank, q: Rank)
    requires p <= q
    ensures 0.0 < Share(k, q) <= Share(k, p)
  {
    var a, b := (k + p) as real, (k + q) as real;
    assert a * (1.0 / a) == 1.0 && b * (1.0 / b) == 1.0;
  }

  ghost function Chunks(results: seq<Evidence>): seq<ChunkId> {
    seq(|results|, i requires 0 <= i < |results| => results[i].chunk)
  }

  /** The exact score of the chunk at a position. */
  ghost function ScoreAt(dense: seq<Candidate>, sparse: seq<Candidate>, k: nat, r: seq<Evidence>, i: nat): real
    requires i < |r|
  {
    Score(dense, sparse, k, r[i].chunk)
  }

  /** Of two fusions of the same lists, in either order, the second scores at least as much at every rank. */
  lemma NoRankAbove(dense: seq<Candidate>, sparse: seq<Candidate>, k: nat, r: seq<Evidence>, s: seq<Evidence>, i: nat)
    requires IsFusion(dense, sparse, k, r) && IsFusion(sparse, dense, k, s) && i < |r| && i < |s|
    ensures ScoreAt(dense, sparse, k, r, i) <= ScoreAt(sparse, dense, k, s, i)
  {
    if ScoreAt(dense, sparse, k, r, i) > ScoreAt(sparse, dense, k, s, i) {
      var above, better := Chunks(r)[..i + 1], Chunks(s)[..i];
      forall c | c in Elems(above) ensures c in Elems(better) {
        var p :| 0 <= p <= i && above[p] == c;
        assert r[p].chunk == c;
        assert p < i ==> Better(dense, sparse, k, r[p].chunk, r[i].chunk);
        assert Appears(r, c) && Appears(s, c);
        var q :| 0 <= q < |s| && s[q].chunk == c;
        assert q < i;
        assert better[q] == c;
      }
      NoDupCard(above);
      NoDupCard(better);
      SubsetCard(Elems(above), Elems(better));
      assert false;
    }
  }

  lemma AppearsIsListed(r: seq<Evidence>, c: ChunkId)
    ensures Appears(r, c) <==> c in Chunks(r)
  {
    if Appears(r, c) {
      var i :| 0 <= i < |r| && r[i].chunk == c;
      assert Chunks(r)[i] == c;
    }
  }

  lemma SwapKeepsChunks(dense: seq<Candidate>, sparse: seq<Candidate>, k: nat, r: seq<Evidence>, s: seq<Evidence>)
    requires IsFusion(dense, sparse, k, r) && IsFusion(sparse, dense, k, s)
    ensures Elems(Chunks(r)) == Elems(Chunks(s)) && |r| == |s|
  {
    forall c ensures c in Chunks(r) <==> c in Chunks(s) {
      AppearsIsListed(r, c);
      AppearsIsListed(s, c);
      assert Appears(r, c) <==> Appears(s, c);
    }
    NoDupCard(Chunks(r));
    NoDupCard(Chunks(s));
  }

  /** Swapping the inputs returns the same chunks with the same scores, and the same score at every rank; only chunks
      with equal scores may change places. */
  lemma SwapKeepsScores(dense: seq<Candidate>, sparse: seq<Candidate>, k: nat, r: seq<Evidence>, s: seq<Evidence>)
    requires IsFusion(dense, sparse, k, r) && IsFusion(sparse, dense, k, s)
    ensures |r| == |s| && forall i :: 0 <= i < |r| ==> r[i].score == s[i].score
    ensures forall i :: 0 <= i < |r| ==> ScoreAt(dense, sparse, k, r, i) == ScoreAt(sparse, dense, k, s, i)
    ensures forall i, j :: 0 <= i < |r| && 0 <= j < |s| && r[i].chunk == s[j].chunk ==> r[i].score == s[j].score
    ensures Elems(Chunks(r)) == Elems(Chunks(s))
  {
    SwapKeepsChunks(dense, sparse, k, r, s);
    forall i | 0 <= i < |r|
      ensures r[i].score == s[i].score && ScoreAt(dense, sparse, k, r, i) == ScoreAt(sparse, dense, k, s, i)
    {
      NoRankAbove(dense, sparse, k, r, s, i);
      NoRankAbove(sparse, dense, k, s, r, i);
    }
  }

  /** `c` is ranked at least as well in the list as `d`, wherever `d` appears. */
  ghost predicate Dominates(list: seq<Candidate>, c: ChunkId, d: ChunkId) {
    forall q :: 0 <= q < |list| && list[q].chunk == d ==>
                  exists p :: 0 <= p < |list| && list[p].chunk == c && list[p].rank <= list[q].rank
  }

  lemma ContributionIsNotNegative(list: seq<Candidate>, k: nat, c: ChunkId)
    requires DistinctChunks(list)
    ensures Contribution(list, k, c) >= 0.0
  {
    if Listed(list, c) {
      var p :| 0 <= p < |list| && list[p].chunk == c;
      PresentContributesShare(list, k, p);
      ShareShrinks(k, list[p].rank, list[p].rank);
    } else {
      AbsentContributesNothing(list, k, c);
    }
  }

  lemma DominantContributesMore(list: seq<Candidate>, k: nat, c: ChunkId, d: ChunkId)
    requires DistinctChunks(list) && Dominates(list, c, d)
    ensures Contribution(list, k, d) <= Contribution(list, k, c)
  {
    if Listed(list, d) {
      var q :| 0 <= q < |list| && list[q].chunk == d;
      var p :| 0 <= p < |list| && list[p].chunk == c && list[p].rank <= list[q].rank;
      PresentContributesShare(list, k, p);
      PresentContributesShare(list, k, q);
      ShareShrinks(k, list[p].rank, list[q].rank);
    } else {
      AbsentContributesNothing(list, k, d);
      ContributionIsNotNegative(list, k, c);
    }
  }

  /** A chunk ranked at least as well as another in every list where the other appears never scores less, exactly or as
      shown. */
  lemma FusionIsMonotone(dense: seq<Candidate>, sparse: seq<Candidate>, k: nat, c: ChunkId, d: ChunkId)
    requires DistinctChunks(dense) && DistinctChunks(sparse) && Dominates(dense, c, d) && Dominates(sparse, c, d)
    ensures Score(dense, sparse, k, d) <= Score(dense, sparse, k, c)
    ensures Rounded(Score(dense, sparse, k, d)) <= Rounded(Score(dense, sparse, k, c))
  {
    DominantContributesMore(dense, k, c, d);
    DominantContributesMore(sparse, k, c, d);
    RoundedIsMonotone(Score(dense, sparse, k, d), Score(dense, sparse, k, c));
  }

  lemma RealProduct(m: int, n: int)
    ensures (m * n) as real == (m as real) * (n as real)
  {
  }

  lemma Expand(z: real, a: real, b: real)
    ensures z * ((z + a) + (z + b)) - (z + a) * (z + b) == z * z - a * b
  {
    assert (z + a) * (z + b) == z * z + z * b + a * z + a * b;
    assert z * ((z + a) + (z + b)) == z * z + z * a + z * z + z * b;
  }

  /** Two shares beat the best single share exactly when the product of the distances from the top is below `(k + 1)^2`. */
  lemma TwoSharesIff(k: nat, p: Rank, q: Rank)
    ensures Share(k, p) + Share(k, q) > Share(k, 1) <==> (p - 1) * (q - 1) < (k + 1) * (k + 1)
  {
    var z, a, b := (k + 1) as real, (p - 1) as real, (q - 1) as real;
    assert (k + p) as real == z + a && (k + q) as real == z + b;
    FractionsIff(z + a, z + b, z);
    Expand(z, a, b);
    RealProduct(k + 1, k + 1);
    RealProduct(p - 1, q - 1);
  }

  lemma FractionsIff(x: real, y: real, z: real)
    requires x > 0.0 && y > 0.0 && z > 0.0
    ensures 1.0 / x + 1.0 / y > 1.0 / z <==> z * (x + y) > x * y
  {
    var s := 1.0 / x + 1.0 / y - 1.0 / z;
    var w := x * y * z;
    assert w * (1.0 / x) == y * z && w * (1.0 / y) == x * z && w * (1.0 / z) == x * y;
    assert w * s == w * (1.0 / x) + w * (1.0 / y) - w * (1.0 / z);
    assert w > 0.0;
    assert s > 0.0 <==> w * s > 0.0;
  }

  /** A chunk in both lists, at positions `i` and `j`, against a chunk of the first list only: it is sure to outscore it
      exactly when its ranks satisfy `(p - 1) * (q - 1) < (k + 1)^2`, as the chunk ranked first shows. */
  lemma AgreementWinsIff(dense: seq<Candidate>, sparse: seq<Candidate>, k: nat, i: nat, j: nat, d: nat)
    requires DistinctChunks(dense) && DistinctChunks(sparse)
    requires i < |dense| && j < |sparse| && dense[i].chunk == sparse[j].chunk
    requires d < |dense| && !Listed(sparse, dense[d].chunk)
    ensures (dense[i].rank - 1) * (sparse[j].rank - 1) < (k + 1) * (k + 1) ==>
              Score(dense, sparse, k, dense[i].chunk) > Score(dense, sparse, k, dense[d].chunk)
    ensures dense[d].rank == 1 ==>
              (Score(dense, sparse, k, dense[i].chunk) > Score(dense, sparse, k, dense[d].chunk)
               <==> (dense[i].rank - 1) * (sparse[j].rank - 1) < (k + 1) * (k + 1))
  {
    PresentContributesShare(dense, k, i);
    PresentContributesShare(sparse, k, j);
    PresentContributesShare(dense, k, d);
    AbsentContributesNothing(sparse, k, dense[d].chunk);
    ShareShrinks(k, 1, dense[d].rank);
    TwoSharesIff(k, dense[i].rank, sparse[j].rank);
  }

  lemma NatProduct(a: nat, b: nat)
    ensures 0 <= a * b == b * a
  {
  }

  lemma Distribute(a: int, b: int, c: int)
    ensures a * (b + c) == a * b + a * c
  {
  }

  lemma Square(a: nat, b: nat, m: nat)
    requires a < m && b < m
    ensures a * b < m * m
  {
    NatProduct(a, m - b);
    NatProduct(m - a - 1, m);
    Distribute(a, b, m - b);
    Distribute(m, a, m - a);
    Distribute(m, 1, m - a - 1);
  }

  /** The sum of two contributions does not depend on which list is called dense. */
  lemma ScoreSwaps(dense: seq<Candidate>, sparse: seq<Candidate>, k: nat, c: ChunkId)
    ensures Score(dense, sparse, k, c) == Score(sparse, dense, k, c)
  {
  }

  /** Agreement wins: a chunk in both lists at ranks up to `k + 1` strictly outscores every chunk that is in one list
      only, whichever list that is. */
  lemma AgreementWins(dense: seq<Candidate>, sparse: seq<Candidate>, k: nat, i: nat, j: nat, d: ChunkId)
    requires DistinctChunks(dense) && DistinctChunks(sparse)
    requires i < |dense| && j < |sparse| && dense[i].chunk == sparse[j].chunk
    requires dense[i].rank <= k + 1 && sparse[j].rank <= k + 1
    requires Listed(dense, d) != Listed(sparse, d)
    ensures Score(dense, sparse, k, dense[i].chunk) > Score(dense, sparse, k, d)
  {
    Square(dense[i].rank - 1, sparse[j].rank - 1, k + 1);
    NatProduct(dense[i].rank - 1, sparse[j].rank - 1);
    if Listed(dense, d) {
      var l :| 0 <= l < |dense| && dense[l].chunk == d;
      AgreementWinsIff(dense, sparse, k, i, j, l);
    } else {
      var l :| 0 <= l < |sparse| && sparse[l].chunk == d;
      AgreementWinsIff(sparse, dense, k, j, i, l);
      ScoreSwaps(dense, sparse, k, d);
      ScoreSwaps(dense, sparse, k, dense[i].chunk);
    }
  }

  /** Whatever rounding shows, an exact lead decides the order. */
  lemma LeadStandsAbove(dense: seq<Candidate>, sparse: seq<Candidate>, k: nat, r: seq<Evidence>, p: nat, q: nat)
    requires IsFusion(dense, sparse, k, r) && p < |r| && q < |r|
    requires Score(dense, sparse, k, r[p].chunk) > Score(dense, sparse, k, r[q].chunk)
    ensures p < q && r[p].rank < r[q].rank
  {
  }

  lemma RankInList(list: seq<Candidate>, p: nat)
    requires DistinctChunks(list) && p < |list|
    ensures RankIn(list, list[p].chunk) == Some(list[p].rank)
    decreases |list|
  {
    if p < |list| - 1 { RankInList(list[..|list| - 1], p); }
  }

  lemma ContributionAt(list: seq<Candidate>, k: nat, c: ChunkId)
    requires DistinctChunks(list)
    ensures var rank := RankIn(list, c);
            Contribution(list, k, c) == if rank.Some? then 1.0 / ((k + rank.value) as real) else 0.0
  {
    ListedHas(list, c);
    if Listed(list, c) {
      var p :| 0 <= p < |list| && list[p].chunk == c;
      RankInList(list, p);
      PresentContributesShare(list, k, p);
    } else {
      AbsentContributesNothing(list, k, c);
    }
  }

  /** The score a result shows, in numbers: within half a millionth of the reciprocals of the constant plus the ranks it
      shows, one for each list that has the chunk. */
  lemma ShownScoreIs(dense: seq<Candidate>, sparse: seq<Candidate>, k: nat, results: seq<Evidence>, i: nat)
    requires DistinctChunks(dense) && DistinctChunks(sparse) && i < |results|
    requires IsFusion(dense, sparse, k, results) && ShowsSources(dense, sparse, results[i])
    ensures var r := results[i];
            var exact := match (r.denseRank, r.sparseRank)
              case (Some(p), None) => 1.0 / ((k + p) as real)
              case (None, Some(q)) => 1.0 / ((k + q) as real)
              case (Some(p), Some(q)) => 1.0 / ((k + p) as real) + 1.0 / ((k + q) as real)
              case (None, None) => -1.0;
            exact > 0.0 && exact - 0.0000005 <= r.score <= exact + 0.0000005
    ensures forall j :: 0 <= j < |dense| && dense[j].chunk == results[i].chunk ==>
              results[i].denseRank == Some(dense[j].rank)
    ensures forall j :: 0 <= j < |sparse| && sparse[j].chunk == results[i].chunk ==>
              results[i].sparseRank == Some(sparse[j].rank)
  {
    var c := results[i].chunk;
    assert Appears(results, c);
    ListedHas(dense, c);
    ListedHas(sparse, c);
    ContributionAt(dense, k, c);
    ContributionAt(sparse, k, c);
    if results[i].denseRank.Some? { ShareShrinks(k, results[i].denseRank.value, results[i].denseRank.value); }
    if results[i].sparseRank.Some? { ShareShrinks(k, results[i].sparseRank.value, results[i].sparseRank.value); }
    forall j | 0 <= j < |dense| && dense[j].chunk == c ensures results[i].denseRank == Some(dense[j].rank) {
      RankInList(dense, j);
    }
    forall j | 0 <= j < |sparse| && sparse[j].chunk == c ensures results[i].sparseRank == Some(sparse[j].rank) {
      RankInList(sparse, j);
    }
  }
}
