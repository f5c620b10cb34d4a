/** The sliding-window rate limiter: a Lua script over one Redis sorted set.

    The specification is the unpruned log of admitted calls. The script prunes the set, lets the whole key
    expire and never looks at the log, yet decides as if it counted the log. */
module SlidingWindow {
  import opened Prelude

  type Member = nat

  function Ceil(x: real): int {
    -((-x).Floor)
  }

  datatype Answer = Answer(allowed: bool, remaining: int, retryAfter: int)

  // ---------------------------------------------------------------- the specification

  ghost predicate Sorted(s: seq<real>) {
    forall i, j :: 0 <= i < j < |s| ==> s[i] <= s[j]
  }

  ghost predicate AllAtMost(s: seq<real>, c: real) {
    forall i :: 0 <= i < |s| ==> s[i] <= c
  }

  /** How many entries lie after `cutoff`. */
  function Recent(log: seq<real>, cutoff: real): nat {
    if log == [] then 0
    else Recent(log[..|log| - 1], cutoff) + if log[|log| - 1] > cutoff then 1 else 0
  }

  /** The first entry after `cutoff`. */
  function Oldest(log: seq<real>, cutoff: real): Option<real> {
    if log == [] then None
    else if log[0] > cutoff then Some(log[0])
    else Oldest(log[1..], cutoff)
  }

  /** The decision at time `now`, given the log of all admitted calls. */
  function Decide(log: seq<real>, now: real, limit: int, window: real): Answer {
    var count := Recent(log, now - window);
    if count < limit then Answer(true, limit - count - 1, 0)
    else
      match Oldest(log, now - window)
      case None => Answer(false, 0, 1)
      case Some(o) => Answer(false, 0, if Ceil(o + window - now) > 1 then Ceil(o + window - now) else 1)
  }

  /** The log after a run of calls made at the given times. */
  function LogAfter(calls: seq<real>, limit: int, window: real): seq<real> {
    if calls == [] then []
    else
      var now := calls[|calls| - 1];
      var log := LogAfter(calls[..|calls| - 1], limit, window);
      if Decide(log, now, limit, window).allowed then log + [now] else log
  }

  /** Entries in the half-open interval `[lo, hi)`. */
  function Within(log: seq<real>, lo: real, hi: real): nat {
    if log == [] then 0
    else Within(log[..|log| - 1], lo, hi) + if lo <= log[|log| - 1] < hi then 1 else 0
  }

  // ---------------------------------------------------------------- properties of the log

  lemma {:induction false} RecentAntitone(log: seq<real>, c: real, d: real)
    requires c <= d
    ensures Recent(log, d) <= Recent(log, c)
  {
    if log != [] { RecentAntitone(log[..|log| - 1], c, d); }
  }

  lemma {:induction false} NoneRecent(log: seq<real>, c: real)
    requires AllAtMost(log, c)
    ensures Recent(log, c) == 0
  {
    if log != [] { NoneRecent(log[..|log| - 1], c); }
  }

  lemma {:induction false} WithinIsRecent(log: seq<real>, lo: real, hi: real, c: real)
    requires c < lo
    ensures Within(log, lo, hi) <= Recent(log, c)
  {
    if log != [] { WithinIsRecent(log[..|log| - 1], lo, hi, c); }
  }

  lemma {:induction false} LogSorted(calls: seq<real>, limit: int, window: real)
    requires Sorted(calls)
    ensures Sorted(LogAfter(calls, limit, window))
    ensures if calls == [] then LogAfter(calls, limit, window) == []
            else AllAtMost(LogAfter(calls, limit, window), calls[|calls| - 1])
  {
    if calls != [] { LogSorted(calls[..|calls| - 1], limit, window); }
  }

  /** Safety over every run: no interval `[a, a + window)` ever holds more than `limit` admitted calls. */
  lemma {:induction false} WindowBound(calls: seq<real>, limit: int, window: real, a: real)
    ensures Within(LogAfter(calls, limit, window), a, a + window) <= if limit > 0 then limit else 0
    decreases |calls|
  {
    if calls != [] {
      var n := |calls| - 1;
      var now, log := calls[n], LogAfter(calls[..n], limit, window);
      WindowBound(calls[..n], limit, window, a);
      if Decide(log, now, limit, window).allowed {
        assert (log + [now])[..|log|] == log;
        if a <= now < a + window { WithinIsRecent(log, a, a + window, now - window); }
      }
    }
  }

  lemma SkipLast(calls: seq<real>, now: real)
    requires Sorted(calls + [now]) && calls != []
    ensures Sorted(calls[..|calls| - 1] + [now]) && calls[|calls| - 1] <= now
  {
    var n := |calls| - 1;
    var all, fewer := calls + [now], calls[..n] + [now];
    assert forall i :: 0 <= i < n ==> all[i] == fewer[i];
    assert all[n] == calls[n] && all[n + 1] == now == fewer[n];
  }

  /** The window is never over-full: between calls at most `limit` entries are in force. */
  lemma {:induction false} AtMostLimit(calls: seq<real>, limit: int, window: real, now: real)
    requires Sorted(calls + [now])
    ensures Recent(LogAfter(calls, limit, window), now - window) <= if limit > 0 then limit else 0
    decreases |calls|
  {
    if calls != [] {
      var n := |calls| - 1;
      var last, log := calls[n], LogAfter(calls[..n], limit, window);
      SkipLast(calls, now);
      AtMostLimit(calls[..n], limit, window, now);
      if Decide(log, last, limit, window).allowed {
        assert (log + [last])[..|log|] == log;
        RecentAntitone(log, last - window, now - window);
      }
    }
  }

  /** `o` is the smallest entry after `c`. */
  ghost predicate IsOldest(log: seq<real>, c: real, o: real) {
    && o > c && (exists i :: 0 <= i < |log| && log[i] == o)
    && forall i :: 0 <= i < |log| && log[i] > c ==> o <= log[i]
  }

  lemma {:induction false} OldestIsLeast(log: seq<real>, c: real)
    requires Sorted(log)
    ensures match Oldest(log, c) case None => AllAtMost(log, c) case Some(o) => IsOldest(log, c, o)
  {
    if log != [] {
      OldestIsLeast(log[1..], c);
      assert forall i :: 0 < i < |log| ==> log[i] == log[1..][i - 1];
      if log[0] > c {
        assert IsOldest(log, c, log[0]);
      } else if Oldest(log[1..], c).Some? {
        var o := Oldest(log[1..], c).value;
        var i :| 0 <= i < |log[1..]| && log[1..][i] == o;
        assert log[i + 1] == o;
      }
    }
  }

  /** Moving the cutoff below the oldest entry in force changes nothing; moving it onto or past it drops that entry. */
  lemma {:induction false} RecentKept(log: seq<real>, c: real, d: real, o: real)
    requires c <= d < o && forall i :: 0 <= i < |log| && log[i] > c ==> o <= log[i]
    ensures Recent(log, d) == Recent(log, c)
  {
    if log != [] { RecentKept(log[..|log| - 1], c, d, o); }
  }

  lemma {:induction false} RecentDrops(log: seq<real>, c: real, d: real, k: nat)
    requires k < |log| && c < log[k] <= d
    ensures Recent(log, d) < Recent(log, c)
  {
    RecentAntitone(log[..|log| - 1], c, d);
    if k < |log| - 1 { RecentDrops(log[..|log| - 1], c, d, k); }
  }

  lemma CeilLeast(x: real, k: int)
    ensures Ceil(x) <= k <==> x <= k as real
  {
  }

  lemma SortedInit(calls: seq<real>, now: real)
    requires Sorted(calls + [now])
    ensures Sorted(calls)
  {
    var all := calls + [now];
    assert forall i :: 0 <= i < |calls| ==> calls[i] == all[i];
  }

  lemma RetryOn(log: seq<real>, limit: int, window: real, now: real, k: int)
    requires limit >= 1 && Sorted(log) && Recent(log, now - window) == limit
    ensures k >= Decide(log, now, limit, window).retryAfter
            <==> k >= 1 && Decide(log, now + k as real, limit, window).allowed
  {
    var c := now - window;
    OldestIsLeast(log, c);
    if Oldest(log, c).None? { NoneRecent(log, c); }
    var o := Oldest(log, c).value;
    CeilLeast(o + window - now, k);
    if k >= 1 {
      var d := now + k as real - window;
      if d < o {
        RecentKept(log, c, d, o);
      } else {
        var i :| 0 <= i < |log| && log[i] == o;
        RecentDrops(log, c, d, i);
      }
    }
  }

  /** A denied call's `retry_after` is the least whole number of seconds, at least one, after which a call
      would be admitted if nothing else is admitted in between. */
  lemma RetryAfterIsLeast(calls: seq<real>, limit: int, window: real, now: real, k: int)
    requires limit >= 1 && Sorted(calls + [now])
    requires !Decide(LogAfter(calls, limit, window), now, limit, window).allowed
    ensures var log := LogAfter(calls, limit, window);
            k >= Decide(log, now, limit, window).retryAfter
            <==> k >= 1 && Decide(log, now + k as real, limit, window).allowed
  {
    SortedInit(calls, now);
    LogSorted(calls, limit, window);
    AtMostLimit(calls, limit, window, now);
    RetryOn(LogAfter(calls, limit, window), limit, window, now, k);
  }

  // ---------------------------------------------------------------- the sorted set

  /** The pruned sorted set represents the log as far as it still matters: every log entry after `horizon`
      is in the set under its own member, and the set holds nothing else but older log entries. */
  ghost predicate Represents(log: seq<real>, members: seq<Member>, zset: map<Member, real>, horizon: real) {
    && |members| == |log| && NoDup(members)
    && (forall m :: m in zset ==> Logged(log, members, m, zset[m]))
    && (forall i :: 0 <= i < |log| && log[i] > horizon ==> members[i] in zset && zset[members[i]] == log[i])
  }

  /** The log holds the score under the member. */
  ghost predicate Logged(log: seq<real>, members: seq<Member>, m: Member, score: real)
    requires |members| == |log|
  {
    exists i :: 0 <= i < |log| && members[i] == m && log[i] == score
  }

  function Pruned(zset: map<Member, real>, cutoff: real): map<Member, real> {
    map m | m in zset && zset[m] > cutoff :: zset[m]
  }

  ghost function MembersAfter(log: seq<real>, members: seq<Member>, cutoff: real): set<Member>
    requires |members| == |log|
  {
    set i | 0 <= i < |log| && log[i] > cutoff :: members[i]
  }

  lemma MembersStep(log: seq<real>, members: seq<Member>, cutoff: real, n: nat)
    requires |members| == |log| == n + 1
    ensures MembersAfter(log, members, cutoff)
            == MembersAfter(log[..n], members[..n], cutoff) + if log[n] > cutoff then {members[n]} else {}
  {
    var rest, all := MembersAfter(log[..n], members[..n], cutoff), MembersAfter(log, members, cutoff);
    forall i | 0 <= i < n && log[i] > cutoff ensures members[i] in rest {
      assert log[..n][i] == log[i] && members[..n][i] == members[i];
    }
    forall m | m in rest ensures m in all {
      var i :| 0 <= i < n && log[..n][i] > cutoff && members[..n][i] == m;
      assert log[i] > cutoff && members[i] == m;
    }
  }

  lemma {:induction false} MembersCounted(log: seq<real>, members: seq<Member>, cutoff: real)
    requires |members| == |log| && NoDup(members)
    ensures |MembersAfter(log, members, cutoff)| == Recent(log, cutoff)
    decreases |log|
  {
    if log != [] {
      var n := |log| - 1;
      MembersCounted(log[..n], members[..n], cutoff);
      MembersStep(log, members, cutoff, n);
      assert members[n] !in MembersAfter(log[..n], members[..n], cutoff);
    }
  }

  /** ZREMRANGEBYSCORE then ZCARD counts the log. */
  lemma PruneCounts(log: seq<real>, members: seq<Member>, zset: map<Member, real>, horizon: real, cutoff: real)
    requires Represents(log, members, zset, horizon) && horizon <= cutoff
    ensures Represents(log, members, Pruned(zset, cutoff), cutoff)
    ensures |Pruned(zset, cutoff)| == Recent(log, cutoff)
    ensures forall m :: m in Pruned(zset, cutoff) ==> Pruned(zset, cutoff)[m] > cutoff
  {
    var p := Pruned(zset, cutoff);
    forall m | m in p ensures m in MembersAfter(log, members, cutoff) && Logged(log, members, m, p[m]) {
      assert Logged(log, members, m, zset[m]);
    }
    assert p.Keys == MembersAfter(log, members, cutoff);
    MembersCounted(log, members, cutoff);
    assert |p| == |p.Keys|;
  }

  /** When the whole key expires, every entry it held had left the window before. */
  lemma ExpiryForgetsNothing(log: seq<real>, members: seq<Member>, now: real, window: real, expiresAt: real)
    requires |members| == |log| && NoDup(members)
    requires AllAtMost(log, expiresAt - (Ceil(window) + 1) as real)
    requires now >= expiresAt
    ensures Represents(log, members, map[], now - window)
  {
    CeilLeast(window, Ceil(window));
  }

  lemma AddMember(log: seq<real>, members: seq<Member>, zset: map<Member, real>, horizon: real, now: real, m: Member)
    requires Represents(log, members, zset, horizon) && m !in members
    ensures Represents(log + [now], members + [m], zset[m := now], horizon)
  {
    var z, l, ms := zset[m := now], log + [now], members + [m];
    forall k | k in z ensures Logged(l, ms, k, z[k]) {
      if k == m {
        assert ms[|log|] == k && l[|log|] == z[k];
      } else {
        assert Logged(log, members, k, zset[k]);
        var i :| 0 <= i < |log| && members[i] == k && log[i] == zset[k];
        assert ms[i] == k && l[i] == z[k];
      }
    }
  }

  /** The state of a key after the script has run at the times `calls`. */
  ghost predicate KeyState(calls: seq<real>, limit: int, window: real, zset: map<Member, real>,
                           expiresAt: Option<real>, members: seq<Member>, horizon: real) {
    && window >= 0.0 && Sorted(calls)
    && Represents(LogAfter(calls, limit, window), members, zset, horizon)
    && (calls != [] ==> horizon <= calls[|calls| - 1] - window)
    && (expiresAt.Some? ==> AllAtMost(LogAfter(calls, limit, window), expiresAt.value - (Ceil(window) + 1) as real))
  }

  /** What is left of the key when the script starts at `now`: Redis drops it once it has expired. */
  function Surviving(zset: map<Member, real>, expiresAt: Option<real>, now: real): map<Member, real> {
    if expiresAt.Some? && now >= expiresAt.value then map[] else zset
  }

  /** Expiry, ZREMRANGEBYSCORE, ZCARD and ZRANGE together tell what the log after the cutoff holds. */
  lemma PruneStep(log: seq<real>, members: seq<Member>, zset: map<Member, real>, expiresAt: Option<real>,
                  horizon: real, now: real, window: real, p: map<Member, real>)
    requires Sorted(log) && Represents(log, members, zset, horizon) && horizon <= now - window
    requires expiresAt.Some? ==> AllAtMost(log, expiresAt.value - (Ceil(window) + 1) as real)
    requires p == Pruned(Surviving(zset, expiresAt, now), now - window)
    ensures Represents(log, members, p, now - window)
    ensures |p| == Recent(log, now - window)
    ensures OldestOf(p) == Oldest(log, now - window)
  {
    var cutoff := now - window;
    var q := Surviving(zset, expiresAt, now);
    if expiresAt.Some? && now >= expiresAt.value {
      ExpiryForgetsNothing(log, members, now, window, expiresAt.value);
      PruneCounts(log, members, q, cutoff, cutoff);
    } else {
      PruneCounts(log, members, q, horizon, cutoff);
    }
    OldestIsLeast(log, cutoff);
    match Oldest(log, cutoff)
    case None => NoneRecent(log, cutoff);
    case Some(o) => SameOldest(log, members, cutoff, p, o);
  }

  lemma SameOldest(log: seq<real>, members: seq<Member>, cutoff: real, p: map<Member, real>, o: real)
    requires Represents(log, members, p, cutoff) && IsOldest(log, cutoff, o)
    requires forall m :: m in p ==> p[m] > cutoff
    ensures OldestOf(p) == Some(o)
  {
    var i :| 0 <= i < |log| && log[i] == o;
    assert members[i] in p && p[members[i]] == o;
    var least := OldestOf(p).value;
    var m :| m in p && p[m] == least;
    assert Logged(log, members, m, p[m]);
    var j :| 0 <= j < |log| && members[j] == m && log[j] == p[m];
    assert o <= log[j];
  }

  ghost predicate IsLeast(p: map<Member, real>, o: real) {
    (exists m :: m in p && p[m] == o) && forall m :: m in p ==> o <= p[m]
  }

  lemma {:induction false} LeastExists(p: map<Member, real>)
    requires p != map[]
    ensures exists o :: IsLeast(p, o)
    decreases |p|
  {
    var m :| m in p;
    var rest := p - {m};
    assert forall x :: x in p ==> x == m || x in rest;
    if rest == map[] {
      assert IsLeast(p, p[m]);
    } else {
      assert p.Keys == rest.Keys + {m} && |rest| == |rest.Keys| && |p| == |p.Keys|;
      LeastExists(rest);
      var least :| IsLeast(rest, least);
      var k :| k in rest && rest[k] == least;
      assert p[k] == least;
      assert IsLeast(p, if least < p[m] then least else p[m]);
    }
  }

  /** `ZRANGE key 0 0 WITHSCORES`. */
  ghost function OldestOf(p: map<Member, real>): (o: Option<real>)
    ensures o.None? <==> p == map[]
    ensures o.Some? ==> IsLeast(p, o.value)
  {
    if p == map[] then None
    else
      LeastExists(p);
      var o :| IsLeast(p, o);
      Some(o)
  }

  lemma CallAdded(calls: seq<real>, limit: int, window: real, members: seq<Member>, p: map<Member, real>,
                  expiry: Option<real>, now: real, m: Member)
    requires Sorted(calls) && (calls != [] ==> calls[|calls| - 1] <= now) && window >= 0.0 && m !in members
    requires Represents(LogAfter(calls, limit, window), members, p, now - window)
    requires expiry.Some? ==> AllAtMost(LogAfter(calls, limit, window), expiry.value - (Ceil(window) + 1) as real)
    ensures var a := Decide(LogAfter(calls, limit, window), now, limit, window).allowed;
            KeyState(calls + [now], limit, window, if a then p[m := now] else p,
                     if a then Some(now + (Ceil(window) + 1) as real) else expiry,
                     if a then members + [m] else members, now - window)
  {
    var log := LogAfter(calls, limit, window);
    LogSorted(calls, limit, window);
    LogStep(calls, limit, window, now);
    SortedSnoc(calls, now);
    if Decide(log, now, limit, window).allowed {
      AddMember(log, members, p, now - window, now, m);
      ExpiryCovers(log, now, window);
    }
  }

  lemma SortedSnoc(s: seq<real>, x: real)
    requires Sorted(s) && (s != [] ==> s[|s| - 1] <= x)
    ensures Sorted(s + [x])
  {
  }

  lemma ExpiryCovers(log: seq<real>, now: real, window: real)
    requires AllAtMost(log, now)
    ensures AllAtMost(log + [now], now + (Ceil(window) + 1) as real - (Ceil(window) + 1) as real)
  {
  }

  lemma LogStep(calls: seq<real>, limit: int, window: real, now: real)
    ensures LogAfter(calls + [now], limit, window)
            == if Decide(LogAfter(calls, limit, window), now, limit, window).allowed
               then LogAfter(calls, limit, window) + [now] else LogAfter(calls, limit, window)
  {
    assert (calls + [now])[..|calls|] == calls;
  }

  /** What the script answers from the pruned set `p`. */
  ghost function ScriptAnswer(p: map<Member, real>, now: real, limit: int, window: real): Answer {
    if |p| < limit then Answer(true, limit - |p| - 1, 0)
    else
      match OldestOf(p)
      case None => Answer(false, 0, 1)
      case Some(o) => Answer(false, 0, if Ceil(o + window - now) > 1 then Ceil(o + window - now) else 1)
  }

  lemma AnswerAgrees(log: seq<real>, p: map<Member, real>, now: real, limit: int, window: real)
    requires |p| == Recent(log, now - window) && OldestOf(p) == Oldest(log, now - window)
    ensures ScriptAnswer(p, now, limit, window) == Decide(log, now, limit, window)
  {
  }

  /** The script on the pruned set decides as the log does. */
  lemma ScriptRefines(calls: seq<real>, limit: int, window: real, zset: map<Member, real>, expiresAt: Option<real>,
                      members: seq<Member>, horizon: real, now: real, p: map<Member, real>)
    requires KeyState(calls, limit, window, zset, expiresAt, members, horizon)
    requires calls != [] ==> calls[|calls| - 1] <= now
    requires p == Pruned(Surviving(zset, expiresAt, now), now - window)
    ensures Represents(LogAfter(calls, limit, window), members, p, now - window)
    ensures ScriptAnswer(p, now, limit, window) == Decide(LogAfter(calls, limit, window), now, limit, window)
  {
    var log := LogAfter(calls, limit, window);
    LogSorted(calls, limit, window);
    PruneStep(log, members, zset, expiresAt, if calls == [] then now - window else horizon, now, window, p);
    AnswerAgrees(LogAfter(calls, limit, window), p, now, limit, window);
  }

  /** The answer of the script and what it leaves of the key. */
  datatype Run = Run(answer: Answer, zset: map<Member, real>, expiresAt: Option<real>)

  ghost function ScriptRun(zset: map<Member, real>, expiresAt: Option<real>, now: real, m: Member,
                           limit: int, window: real): Run
  {
    var p := Pruned(Surviving(zset, expiresAt, now), now - window);
    var a := ScriptAnswer(p, now, limit, window);
    Run(a, if a.allowed then p[m := now] else p,
        if a.allowed then Some(now + (Ceil(window) + 1) as real) else expiresAt)
  }

  /** One run of the script, on the set and on the log. */
  lemma CallRefines(calls: seq<real>, limit: int, window: real, zset: map<Member, real>, expiresAt: Option<real>,
                    members: seq<Member>, horizon: real, now: real, m: Member, r: Run)
    requires KeyState(calls, limit, window, zset, expiresAt, members, horizon)
    requires (calls != [] ==> calls[|calls| - 1] <= now) && m !in members
    requires r == ScriptRun(zset, expiresAt, now, m, limit, window)
    ensures r.answer == Decide(LogAfter(calls, limit, window), now, limit, window)
    ensures KeyState(calls + [now], limit, window, r.zset, r.expiresAt,
                     if r.answer.allowed then members + [m] else members, now - window)
    ensures LogAfter(calls + [now], limit, window)
            == if r.answer.allowed then LogAfter(calls, limit, window) + [now] else LogAfter(calls, limit, window)
  {
    var p := Pruned(Surviving(zset, expiresAt, now), now - window);
    ScriptRefines(calls, limit, window, zset, expiresAt, members, horizon, now, p);
    LogStep(calls, limit, window, now);
    CallAdded(calls, limit, window, members, p, expiresAt, now, m);
  }

  datatype Policy = FailOpen | FailClosed

  datatype Outcome =
    | Allowed(current: int, remaining: int, degraded: bool)
    | Exceeded(retryAfter: int)

  lemma LeastIsUnique(p: map<Member, real>, a: real, b: real)
    requires IsLeast(p, a) && IsLeast(p, b)
    ensures a == b
  {
    var m :| m in p && p[m] == a;
    var k :| k in p && p[k] == b;
  }

  method OldestScore(zset: map<Member, real>) returns (o: Option<real>)
    ensures o == OldestOf(zset)
  {
    o := None;
    var left := zset.Keys;
    while left != {}
      invariant left <= zset.Keys
      invariant o.None? <==> left == zset.Keys
      invariant o.Some? ==> exists m :: m in zset && zset[m] == o.value
      invariant o.Some? ==> forall m :: m in zset && m !in left ==> o.value <= zset[m]
      decreases left
    {
      var m :| m in left;
      if o.None? || zset[m] < o.value { o := Some(zset[m]); }
      left := left - {m};
    }
    if zset != map[] {
      assert zset.Keys != {};
      LeastIsUnique(zset, o.value, OldestOf(zset).value);
    }
  }

  /** One rate-limit key. `calls` records when the script ran; timestamps do not decrease and members are unique. */
  class RateKey {
    const limit: int
    const window: real
    var zset: map<Member, real>
    var expiresAt: Option<real>
    ghost var calls: seq<real>
    ghost var members: seq<Member>
    ghost var horizon: real

    ghost function Log(): seq<real>
      reads this
    {
      LogAfter(calls, limit, window)
    }

    ghost predicate Valid()
      reads this
    {
      KeyState(calls, limit, window, zset, expiresAt, members, horizon)
    }

    constructor (lim: int, win: real)
      requires win >= 0.0
      ensures Valid() && limit == lim && window == win && calls == [] && members == []
    {
      limit, window := lim, win;
      zset, expiresAt := map[], None;
      calls, members, horizon := [], [], 0.0;
    }

    /** `_LUA_SLIDING_WINDOW`. */
    method Script(now: real, member: Member) returns (a: Answer)
      modifies this`zset, this`expiresAt
      ensures Run(a, zset, expiresAt) == ScriptRun(old(zset), old(expiresAt), now, member, limit, window)
    {
      if expiresAt.Some? && now >= expiresAt.value { zset := map[]; }
      zset := Pruned(zset, now - window);
      var count := |zset|;
      if count < limit {
        zset := zset[member := now];
        expiresAt := Some(now + (Ceil(window) + 1) as real);
        a := Answer(true, limit - count - 1, 0);
      } else {
        var oldest := OldestScore(zset);
        var retryAfter := 1;
        if oldest.Some? {
          var wait := Ceil(oldest.value + window - now);
          if wait > 1 { retryAfter := wait; }
        }
        a := Answer(false, 0, retryAfter);
      }
    }

    /** One call of the script at `now`: its answer is that of the unpruned log. */
    method Eval(now: real, member: Member) returns (a: Answer)
      requires Valid() && (calls != [] ==> calls[|calls| - 1] <= now) && member !in members
      modifies this
      ensures Valid() && calls == old(calls) + [now]
      ensures members == if a.allowed then old(members) + [member] else old(members)
      ensures a == Decide(old(Log()), now, limit, window)
      ensures Log() == if a.allowed then old(Log()) + [now] else old(Log())
    {
      ghost var r := ScriptRun(zset, expiresAt, now, member, limit, window);
      CallRefines(calls, limit, window, zset, expiresAt, members, horizon, now, member, r);
      a := Script(now, member);
      if a.allowed { members := members + [member]; }
      horizon := now - window;
      calls := calls + [now];
    }

    /** `check_limit`: the script's answer, or the degradation policy when Redis is down. */
    method CheckLimit(now: real, member: Member, redisUp: bool, policy: Policy) returns (r: Outcome)
      requires Valid() && (calls != [] ==> calls[|calls| - 1] <= now) && member !in members
      modifies this
      ensures Valid()
      ensures redisUp ==> calls == old(calls) + [now]
      ensures redisUp ==> (r.Allowed? <==> Recent(old(Log()), now - window) < limit)
      ensures redisUp && r.Allowed? ==> Log() == old(Log()) + [now] && !r.degraded
      ensures redisUp && r.Allowed? ==> r.current == Recent(old(Log()), now - window) + 1
      ensures redisUp && r.Allowed? ==> r.current + r.remaining == limit
      ensures redisUp && r.Exceeded? ==> Log() == old(Log())
      ensures redisUp && r.Exceeded? ==> r.retryAfter == Decide(old(Log()), now, limit, window).retryAfter >= 1
      ensures !redisUp ==> calls == old(calls) && zset == old(zset)
      ensures !redisUp ==> r == if policy.FailClosed? then Exceeded(30) else Allowed(0, limit, true)
    {
      if !redisUp {
        return if policy.FailClosed? then Exceeded(30) else Allowed(0, limit, true);
      }
      var a := Eval(now, member);
      r := if a.allowed then Allowed(limit - a.remaining, a.remaining, false) else Exceeded(a.retryAfter);
    }
  }
}
