/** The near-duplicate filter behind rank fusion: a candidate goes if its tokens are too similar to those of a survivor
    ranked above it. Similarities are real numbers; the tokenizer is a parameter. */
module NearDuplicates {
  import opened Prelude
  import opened RankFusion

  type Tokens = set<string>

  /** `compute_jaccard_similarity`. */
  function Similarity(a: Tokens, b: Tokens): (r: real)
    ensures 0.0 <= r <= 1.0
  {
    if a == {} || b == {} then 0.0
    else
      SubsetCard(a * b, a + b);
      SubsetCard(a, a + b);
      assert |a| > 0;
      AtMostOne(|a * b|, |a + b|);
      |a * b| as real / |a + b| as real
  }

  lemma AtMostOne(m: nat, n: nat)
    requires m <= n && n > 0
    ensures 0.0 <= m as real / n as real <= 1.0
  {
    var x := m as real / n as real;
    assert x * n as real == m as real;
  }

  /** Candidates with the same tokens are as similar as can be, unless they have none. */
  lemma SameTokens(a: Tokens)
    ensures Similarity(a, a) == if a == {} then 0.0 else 1.0
  {
    assert a * a == a && a + a == a;
    if a != {} { assert (|a| as real) / (|a| as real) == 1.0; }
  }

  /** The similarity of two token sets that share `common` and have `a` and `b` to themselves, in numbers: the shared
      tokens among all. At the default threshold of 0.92 they are near duplicates exactly if the tokens they do not share
      number at most two for every 23 they do. */
  lemma SimilarityIs(common: Tokens, a: Tokens, b: Tokens)
    requires common !! a && common !! b && a !! b && common + a != {} && common + b != {}
    ensures Similarity(common + a, common + b) * ((|common| + |a| + |b|) as real) == |common| as real
    ensures Similarity(common + a, common + b) >= 0.92 <==> 23 * (|a| + |b|) <= 2 * |common|
  {
    var x, y := common + a, common + b;
    assert x * y == common && x + y == common + a + b;
    var n := |common| + |a| + |b|;
    assert |x + y| == n;
    assert |x| > 0 && n == |x| + |b|;
    DivTimes(|common| as real, n as real);
    Ratio(Similarity(x, y), |common| as real, n as real, |common|, n);
  }

  lemma TimesPositive(r: real, s: real, n: real)
    requires n > 0.0
    ensures r >= s <==> r * n >= s * n
  {
    if r >= s { assert (r - s) * n >= 0.0; } else { assert (s - r) * n > 0.0; }
  }

  lemma DivTimes(x: real, y: real)
    requires y > 0.0
    ensures (x / y) * y == x
  {
  }

  lemma Percent(m: nat, n: nat)
    ensures m as real >= 0.92 * (n as real) <==> 100 * m >= 92 * n
  {
    assert (100 * m) as real == 100.0 * (m as real) && (92 * n) as real == 92.0 * (n as real);
  }

  lemma Ratio(r: real, x: real, y: real, m: nat, n: nat)
    requires n > 0 && x == m as real && y == n as real && r * y == x
    ensures r >= 0.92 <==> 100 * m >= 92 * n
  {
    TimesPositive(r, 0.92, y);
    Percent(m, n);
  }

  predicate Similar(a: Tokens, b: Tokens, threshold: real) {
    Similarity(a, b) >= threshold
  }

  // ---------------------------------------------------------------------------------------------
  // The specification
  // ---------------------------------------------------------------------------------------------

  /** Some position of `kept` holds tokens similar to `a`. */
  predicate Covered(tokens: seq<Tokens>, threshold: real, kept: seq<nat>, a: Tokens)
    requires forall p :: 0 <= p < |kept| ==> kept[p] < |tokens|
  {
    exists p :: 0 <= p < |kept| && Similar(a, tokens[kept[p]], threshold)
  }

  ghost predicate Ascending(kept: seq<nat>, n: nat) {
    && (forall p :: 0 <= p < |kept| ==> kept[p] < n)
    && (forall p, q :: 0 <= p < q < |kept| ==> kept[p] < kept[q])
  }

  /** What a filtered list is: no survivor is similar to one above it, and whatever is gone is similar to a survivor above
      it. */
  ghost predicate IsFilter(tokens: seq<Tokens>, threshold: real, kept: seq<nat>) {
    && Ascending(kept, |tokens|)
    && (forall p, q :: 0 <= p < q < |kept| ==> !Similar(tokens[kept[q]], tokens[kept[p]], threshold))
    && (forall i: nat :: i < |tokens| && i !in kept ==> Dropped(tokens, threshold, kept, i))
  }

  ghost predicate Dropped(tokens: seq<Tokens>, threshold: real, kept: seq<nat>, i: nat)
    requires i < |tokens| && Ascending(kept, |tokens|)
  {
    exists p :: 0 <= p < |kept| && kept[p] < i && Similar(tokens[i], tokens[kept[p]], threshold)
  }

  /** The positions the greedy pass keeps. */
  ghost function Kept(tokens: seq<Tokens>, threshold: real): (kept: seq<nat>)
    ensures Ascending(kept, |tokens|)
  {
    if tokens == [] then []
    else
      var n := |tokens| - 1;
      var kept := Kept(tokens[..n], threshold);
      if Covered(tokens, threshold, kept, tokens[n]) then kept else kept + [n]
  }

  lemma DroppedLonger(tokens: seq<Tokens>, threshold: real, kept: seq<nat>, more: seq<nat>, i: nat)
    requires tokens != [] && Ascending(kept, |tokens| - 1) && Ascending(more, |tokens|) && kept <= more
    requires i < |tokens| - 1 && Dropped(tokens[..|tokens| - 1], threshold, kept, i)
    ensures Dropped(tokens, threshold, more, i)
  {
    var init := tokens[..|tokens| - 1];
    var p :| 0 <= p < |kept| && kept[p] < i && Similar(init[i], init[kept[p]], threshold);
    assert more[p] == kept[p];
  }

  lemma {:induction false} KeptIsFilter(tokens: seq<Tokens>, threshold: real)
    ensures IsFilter(tokens, threshold, Kept(tokens, threshold))
  {
    if tokens != [] {
      var n := |tokens| - 1;
      var before, kept := Kept(tokens[..n], threshold), Kept(tokens, threshold);
      KeptIsFilter(tokens[..n], threshold);
      assert kept == before || kept[|before|] == n;
      forall i: nat | i < |tokens| && i !in kept ensures Dropped(tokens, threshold, kept, i) {
        if i < n {
          assert i !in before;
          DroppedLonger(tokens, threshold, before, kept, i);
        }
      }
    }
  }

  /** There is only one such list: what survives is fixed by the ranking and the threshold. */
  lemma SameUpTo(tokens: seq<Tokens>, threshold: real, a: seq<nat>, b: seq<nat>, i: nat)
    requires IsFilter(tokens, threshold, a) && IsFilter(tokens, threshold, b) && i < |tokens|
    ensures i in a <==> i in b
  {
    if i in a && i !in b {
      SurvivorNotDropped(tokens, threshold, a, b, i);
    } else if i in b && i !in a {
      SurvivorNotDropped(tokens, threshold, b, a, i);
    }
  }

  lemma {:induction false} SurvivorNotDropped(tokens: seq<Tokens>, threshold: real, a: seq<nat>, b: seq<nat>, i: nat)
    requires IsFilter(tokens, threshold, a) && IsFilter(tokens, threshold, b) && i < |tokens| && i in a && i !in b
    ensures false
    decreases i
  {
    assert Dropped(tokens, threshold, b, i);
    var p :| 0 <= p < |b| && b[p] < i && Similar(tokens[i], tokens[b[p]], threshold);
    var j := b[p];
    if j !in a { SurvivorNotDropped(tokens, threshold, b, a, j); }
  }

  lemma {:induction false} AscendingFits(a: seq<nat>, n: nat)
    requires Ascending(a, n)
    ensures |a| <= n
    decreases |a|
  {
    if a != [] { AscendingFits(a[..|a| - 1], a[|a| - 1]); }
  }

  lemma {:induction false} AscendingUnique(a: seq<nat>, b: seq<nat>, n: nat)
    requires Ascending(a, n) && Ascending(b, n) && forall i: nat :: i < n ==> (i in a <==> i in b)
    ensures a == b
    decreases n
  {
    if n == 0 {
      AscendingFits(a, 0);
      AscendingFits(b, 0);
    } else {
      var m := n - 1;
      var a', b' := Without(a, m), Without(b, m);
      AscendingUnique(a', b', m);
    }
  }

  /** An ascending list without its largest possible member. */
  ghost function Without(a: seq<nat>, m: nat): (r: seq<nat>)
    requires Ascending(a, m + 1)
    ensures Ascending(r, m) && a == (if m in a then r + [m] else r) && forall i: nat :: i < m ==> (i in r <==> i in a)
  {
    if a != [] && a[|a| - 1] == m then a[..|a| - 1] else a
  }

  lemma FilterUnique(tokens: seq<Tokens>, threshold: real, a: seq<nat>, b: seq<nat>)
    requires IsFilter(tokens, threshold, a) && IsFilter(tokens, threshold, b)
    ensures a == b
  {
    forall i: nat | i < |tokens| ensures i in a <==> i in b { SameUpTo(tokens, threshold, a, b, i); }
    AscendingUnique(a, b, |tokens|);
  }

  /** The tokens of the survivors. */
  ghost function Picked(tokens: seq<Tokens>, kept: seq<nat>): seq<Tokens>
    requires Ascending(kept, |tokens|)
  {
    seq(|kept|, p requires 0 <= p < |kept| => tokens[kept[p]])
  }

  /** Filtering again removes nothing. */
  lemma FilterIsIdempotent(tokens: seq<Tokens>, threshold: real)
    ensures var once := Picked(tokens, Kept(tokens, threshold));
            Picked(once, Kept(once, threshold)) == once
  {
    KeptIsFilter(tokens, threshold);
    var once := Picked(tokens, Kept(tokens, threshold));
    var all := seq(|once|, p requires 0 <= p < |once| => p);
    forall i: nat | i < |once| ensures i in all { assert all[i] == i; }
    KeptIsFilter(once, threshold);
    FilterUnique(once, threshold, Kept(once, threshold), all);
  }

  // ---------------------------------------------------------------------------------------------
  // The filter
  // ---------------------------------------------------------------------------------------------

  ghost function TokensOf(candidates: seq<Evidence>, tokenize: string -> Tokens): seq<Tokens> {
    seq(|candidates|, i requires 0 <= i < |candidates| => tokenize(candidates[i].content))
  }

  /** The survivors at the positions `kept`, before they are ranked again. */
  ghost predicate Survive(candidates: seq<Evidence>, kept: seq<nat>, surviving: seq<Evidence>) {
    && Ascending(kept, |candidates|) && |surviving| == |kept|
    && forall p :: 0 <= p < |kept| ==> surviving[p] == candidates[kept[p]]
  }

  predicate AnySimilar(a: Tokens, survivors: seq<Tokens>, threshold: real) {
    exists p :: 0 <= p < |survivors| && Similar(a, survivors[p], threshold)
  }

  /** The inner loop: is there a survivor similar to the candidate? */
  method IsDuplicate(a: Tokens, survivors: seq<Tokens>, threshold: real) returns (dup: bool)
    ensures dup <==> AnySimilar(a, survivors, threshold)
  {
    for p := 0 to |survivors|
      invariant forall q :: 0 <= q < p ==> !Similar(a, survivors[q], threshold)
    {
      if Similarity(a, survivors[p]) >= threshold {
        return true;
      }
    }
    return false;
  }

  /** The survivors and their token sets after the candidates before `i`. */
  ghost predicate Filtered(candidates: seq<Evidence>, all: seq<Tokens>, threshold: real, i: nat, kept: seq<nat>,
                           surviving: seq<Evidence>, sets: seq<Tokens>)
    requires i <= |all| == |candidates|
  {
    && kept == Kept(all[..i], threshold) && Survive(candidates, kept, surviving) && sets == Picked(all, kept)
  }

  lemma KeptStep(all: seq<Tokens>, threshold: real, i: nat, kept: seq<nat>)
    requires i < |all| && kept == Kept(all[..i], threshold)
    ensures Ascending(kept, |all|) && Ascending(kept + [i], |all|)
    ensures Kept(all[..i + 1], threshold)
            == if AnySimilar(all[i], Picked(all, kept), threshold) then kept else kept + [i]
  {
    var longer := all[..i + 1];
    assert longer[..i] == all[..i];
    assert forall p :: 0 <= p < |kept| ==> longer[kept[p]] == all[kept[p]] == Picked(all, kept)[p];
    assert Covered(longer, threshold, kept, longer[i]) <==> AnySimilar(all[i], Picked(all, kept), threshold);
  }

  lemma FilterStep(candidates: seq<Evidence>, all: seq<Tokens>, threshold: real, i: nat, kept: seq<nat>,
                   surviving: seq<Evidence>, sets: seq<Tokens>)
    requires i < |all| == |candidates| && Filtered(candidates, all, threshold, i, kept, surviving, sets)
    ensures if AnySimilar(all[i], sets, threshold) then
              Filtered(candidates, all, threshold, i + 1, kept, surviving, sets)
            else
              Filtered(candidates, all, threshold, i + 1, kept + [i], surviving + [candidates[i]], sets + [all[i]])
  {
    KeptStep(all, threshold, i, kept);
  }

  /** The outer loop of `deduplicate_candidates`. */
  method Filter(candidates: seq<Evidence>, tokenize: string -> Tokens, threshold: real)
    returns (surviving: seq<Evidence>, ghost kept: seq<nat>)
    ensures kept == Kept(TokensOf(candidates, tokenize), threshold) && Survive(candidates, kept, surviving)
  {
    ghost var all := TokensOf(candidates, tokenize);
    var sets: seq<Tokens>;
    surviving, sets, kept := [], [], [];
    for i := 0 to |candidates|
      invariant Filtered(candidates, all, threshold, i, kept, surviving, sets)
    {
      FilterStep(candidates, all, threshold, i, kept, surviving, sets);
      var tokens := tokenize(candidates[i].content);
      assert tokens == all[i];
      var dup := IsDuplicate(tokens, sets, threshold);
      if !dup {
        surviving, sets, kept := surviving + [candidates[i]], sets + [tokens], kept + [i];
      }
    }
    assert all[..|candidates|] == all;
  }

  /** What `deduplicate_candidates` leaves: the survivors at the positions the greedy pass keeps, in their order, ranked
      from 1 without gaps, nothing else about them changed. */
  ghost predicate IsDeduplicated(candidates: seq<Evidence>, tokenize: string -> Tokens, threshold: real,
                                 surviving: seq<Evidence>)
  {
    var kept := Kept(TokensOf(candidates, tokenize), threshold);
    |surviving| == |kept| && forall p :: 0 <= p < |kept| ==> surviving[p] == candidates[kept[p]].(rank := p + 1)
  }

  /** `deduplicate_candidates`. */
  method Deduplicate(candidates: seq<Evidence>, tokenize: string -> Tokens, threshold: real)
    returns (surviving: seq<Evidence>)
    ensures IsDeduplicated(candidates, tokenize, threshold, surviving)
  {
    ghost var kept;
    surviving, kept := Filter(candidates, tokenize, threshold);
    ghost var before := surviving;
    for i := 0 to |surviving|
      invariant |surviving| == |before|
      invariant forall p :: 0 <= p < i ==> surviving[p] == before[p].(rank := p + 1)
      invariant forall p :: i <= p < |before| ==> surviving[p] == before[p]
    {
      surviving := surviving[i := surviving[i].(rank := i + 1)];
    }
  }

  /** Behind fusion: the best result always survives, the survivors stand in the order of their exact scores, and of two
      results with the same tokens, unless they have none, only the better one can survive. */
  lemma SurvivorsOfFusion(dense: seq<Candidate>, sparse: seq<Candidate>, k: nat, r: seq<Evidence>,
                          tokenize: string -> Tokens, threshold: real, kept: seq<nat>)
    requires IsFusion(dense, sparse, k, r) && IsFilter(TokensOf(r, tokenize), threshold, kept) && r != []
    ensures kept != [] && kept[0] == 0
    ensures forall p, q :: 0 <= p < q < |kept| ==> Better(dense, sparse, k, r[kept[p]].chunk, r[kept[q]].chunk)
    ensures threshold <= 1.0 ==>
              forall p, q :: 0 <= p < q < |kept| && tokenize(r[kept[p]].content) == tokenize(r[kept[q]].content) ==>
                tokenize(r[kept[p]].content) == {}
  {
    var tokens := TokensOf(r, tokenize);
    assert !Dropped(tokens, threshold, kept, 0);
    var x :| 0 <= x < |kept| && kept[x] == 0;
    assert kept[0] <= kept[x];
    forall p, q | 0 <= p < q < |kept| && tokens[kept[p]] == tokens[kept[q]] && threshold <= 1.0
      ensures tokens[kept[p]] == {}
    {
      assert !Similar(tokens[kept[q]], tokens[kept[p]], threshold);
      SameTokens(tokens[kept[p]]);
    }
  }
}
