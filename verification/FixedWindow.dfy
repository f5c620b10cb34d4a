/** The folder-create limiter: a Redis counter that is incremented on every call, admitted or not, and whose
    expiry is set only when it has none (`EXPIRE … NX`), so its window starts at the first call. */
module FixedWindow {
  import opened Prelude

  const PERIOD := 60.0
  const USER_LIMIT := 60
  const WORKSPACE_LIMIT := 500

  ghost predicate Sorted(s: seq<real>) {
    forall i, j :: 0 <= i < j < |s| ==> s[i] <= s[j]
  }

  /** The index of the call that opened the window of call `i`. */
  ghost function Opener(calls: seq<real>, i: nat): (s: nat)
    requires i < |calls|
    ensures s <= i
    decreases i
  {
    if i == 0 then 0
    else
      var s := Opener(calls, i - 1);
      if calls[i] < calls[s] + PERIOD then s else i
  }

  /** The value INCR returns to call `i`. */
  ghost function Count(calls: seq<real>, i: nat): nat
    requires i < |calls|
  {
    i - Opener(calls, i) + 1
  }

  /** Call `i` falls in `[a, a + 60)` and its counter value is within `limit`. */
  ghost predicate Passes(calls: seq<real>, limit: nat, a: real, i: nat)
    requires i < |calls|
  {
    a <= calls[i] < a + PERIOD && Count(calls, i) <= limit
  }

  ghost function Passed(calls: seq<real>, limit: nat, a: real): set<nat> {
    set i: nat | i < |calls| && Passes(calls, limit, a, i)
  }

  lemma {:induction false} OpenerProps(calls: seq<real>, i: nat)
    requires Sorted(calls) && i < |calls|
    ensures Opener(calls, Opener(calls, i)) == Opener(calls, i)
    ensures calls[i] < calls[Opener(calls, i)] + PERIOD
  {
    if i > 0 { OpenerProps(calls, i - 1); }
  }

  lemma {:induction false} OpenerMonotone(calls: seq<real>, i: nat, j: nat)
    requires i <= j < |calls|
    ensures Opener(calls, i) <= Opener(calls, j)
    decreases j
  {
    if i < j { OpenerMonotone(calls, i, j - 1); }
  }

  /** Calls within 60 seconds of an opening call share its window. */
  lemma {:induction false} SameWindow(calls: seq<real>, s: nat, j: nat)
    requires Sorted(calls) && s <= j < |calls| && Opener(calls, s) == s && calls[j] < calls[s] + PERIOD
    ensures Opener(calls, j) == s
    decreases j
  {
    if s < j { SameWindow(calls, s, j - 1); }
  }

  lemma SubsetOfUnion(p: set<nat>, a: set<nat>, b: set<nat>)
    requires p <= a + b
    ensures |p| <= |a| + |b|
  {
    SubsetCard(p, a + b);
    assert a + b == a + (b - a);
    SubsetCard(b - a, b);
  }

  /** A call that passes inside the interval shares the window of every earlier opening call inside it. */
  lemma OpenedInside(calls: seq<real>, limit: nat, a: real, s: nat, i: nat)
    requires Sorted(calls) && s <= i < |calls| && Opener(calls, s) == s && calls[s] >= a && Passes(calls, limit, a, i)
    ensures Opener(calls, i) == s
  {
    SameWindow(calls, s, i);
  }

  /** The first call at or after `a`. */
  lemma FirstInside(calls: seq<real>, limit: nat, a: real) returns (lo: nat)
    requires Sorted(calls) && Passed(calls, limit, a) != {}
    ensures lo < |calls| && calls[lo] >= a
    ensures forall i :: i in Passed(calls, limit, a) ==> lo <= i
  {
    var x :| x in Passed(calls, limit, a);
    lo := x;
    while lo > 0 && calls[lo - 1] >= a
      invariant lo < |calls| && calls[lo] >= a
    {
      lo := lo - 1;
    }
  }

  lemma LaterOpener(calls: seq<real>, lo: nat, i: nat)
    requires Sorted(calls) && lo <= i < |calls| && Opener(calls, i) != Opener(calls, lo)
    ensures Opener(calls, i) > lo
    ensures Opener(calls, Opener(calls, i)) == Opener(calls, i)
  {
    OpenerMonotone(calls, lo, i);
    OpenerProps(calls, i);
    if Opener(calls, i) <= lo { OpenerMonotone(calls, Opener(calls, i), lo); }
  }

  /** At most one window opens and is used after the first call inside the interval. */
  lemma OneLaterWindow(calls: seq<real>, limit: nat, a: real, lo: nat, i: nat, j: nat)
    requires Sorted(calls) && lo <= i <= j < |calls| && calls[lo] >= a
    requires Passes(calls, limit, a, j) && Opener(calls, i) != Opener(calls, lo)
    ensures Opener(calls, i) == Opener(calls, j)
  {
    LaterOpener(calls, lo, i);
    OpenedInside(calls, limit, a, Opener(calls, i), j);
  }

  /** Where a passing call sits: in the window `s` of the first call inside, or in the one later window `r` in use. */
  lemma InOneOfTwo(calls: seq<real>, limit: nat, a: real, lo: nat, k: nat, i: nat, s: nat, r: nat)
    requires Sorted(calls) && lo <= k < |calls| && lo <= i < |calls| && calls[lo] >= a
    requires Passes(calls, limit, a, k) && Passes(calls, limit, a, i)
    requires s == Opener(calls, lo) && r == Opener(calls, k) && r != s
    ensures lo <= i < s + limit || r <= i < r + limit
  {
    if Opener(calls, i) != s {
      if i <= k { OneLaterWindow(calls, limit, a, lo, i, k); } else { OneLaterWindow(calls, limit, a, lo, k, i); }
    }
  }

  lemma TwoWindows(calls: seq<real>, limit: nat, a: real, lo: nat, k: nat)
    requires Sorted(calls) && lo <= k < |calls| && calls[lo] >= a && Passes(calls, limit, a, k)
    requires Opener(calls, k) != Opener(calls, lo)
    requires forall i :: i in Passed(calls, limit, a) ==> lo <= i
    ensures |Passed(calls, limit, a)| <= 2 * limit - 1
  {
    var s, r := Opener(calls, lo), Opener(calls, k);
    if s == lo { OpenedInside(calls, limit, a, lo, k); }
    forall i | i in Passed(calls, limit, a) ensures i in Range(lo, s + limit) + Range(r, r + limit) {
      InOneOfTwo(calls, limit, a, lo, k, i, s, r);
    }
    SubsetOfUnion(Passed(calls, limit, a), Range(lo, s + limit), Range(r, r + limit));
  }

  /** In any 60-second interval at most `2 * limit - 1` calls pass: the counter is weaker than a sliding window,
      but by less than a factor of two. */
  lemma FixedWindowBound(calls: seq<real>, limit: nat, a: real)
    requires Sorted(calls) && limit >= 1
    ensures |Passed(calls, limit, a)| <= 2 * limit - 1
  {
    var p := Passed(calls, limit, a);
    if p != {} {
      var lo := FirstInside(calls, limit, a);
      if k :| k in p && Opener(calls, k) != Opener(calls, lo) {
        TwoWindows(calls, limit, a, lo, k);
      } else {
        SubsetOfUnion(p, Range(lo, Opener(calls, lo) + limit), {});
      }
    }
  }

  /** The bound is attained: one call at 0, the others of the first window just before it closes, a full second window. */
  function Burst(limit: nat): seq<real> {
    seq(2 * limit, i => if i == 0 then 0.0 else if i < limit then 59.0 else 60.0)
  }

  lemma {:induction false} BurstOpener(limit: nat, i: nat)
    requires limit >= 1 && i < 2 * limit
    ensures Opener(Burst(limit), i) == if i < limit then 0 else limit
    decreases i
  {
    if i > 0 { BurstOpener(limit, i - 1); }
  }

  lemma BoundAttained(limit: nat)
    requires limit >= 1
    ensures Sorted(Burst(limit)) && |Passed(Burst(limit), limit, 59.0)| == 2 * limit - 1
  {
    forall i: nat | i < 2 * limit ensures Opener(Burst(limit), i) == if i < limit then 0 else limit {
      BurstOpener(limit, i);
    }
    assert Passed(Burst(limit), limit, 59.0) == Range(1, 2 * limit);
  }

  lemma {:induction false} OpenerPrefix(calls: seq<real>, now: real, i: nat)
    requires i < |calls|
    ensures Opener(calls + [now], i) == Opener(calls, i)
  {
    if i > 0 { OpenerPrefix(calls, now, i - 1); }
  }

  /** What the key holds after the calls so far: the last counter value and when its window closes. */
  ghost predicate Holds(value: nat, expiresAt: Option<real>, calls: seq<real>) {
    if calls == [] then value == 0 && expiresAt == None
    else
      var last := |calls| - 1;
      value == Count(calls, last) && expiresAt == Some(calls[Opener(calls, last)] + PERIOD)
  }

  /** INCR and EXPIRE NX, on a key that vanishes when its expiry has passed. */
  function Incremented(value: nat, expiresAt: Option<real>, now: real): (nat, Option<real>) {
    var live := expiresAt.Some? && now < expiresAt.value;
    (if live then value + 1 else 1, if live then expiresAt else Some(now + PERIOD))
  }

  lemma HitCounts(value: nat, expiresAt: Option<real>, calls: seq<real>, now: real)
    requires Holds(value, expiresAt, calls)
    ensures var (v, e) := Incremented(value, expiresAt, now); Holds(v, e, calls + [now])
  {
    if calls != [] { OpenerPrefix(calls, now, |calls| - 1); }
  }

  /** One counter key. */
  class Counter {
    var value: nat
    var expiresAt: Option<real>
    ghost var calls: seq<real>

    ghost predicate Valid()
      reads this
    {
      Sorted(calls) && Holds(value, expiresAt, calls)
    }

    constructor ()
      ensures Valid() && calls == []
    {
      value, expiresAt, calls := 0, None, [];
    }

    method Hit(now: real) returns (n: nat)
      requires Valid() && (calls != [] ==> calls[|calls| - 1] <= now)
      modifies this
      ensures Valid() && calls == old(calls) + [now]
      ensures n == Count(calls, |calls| - 1)
    {
      HitCounts(value, expiresAt, calls, now);
      if expiresAt.Some? && now >= expiresAt.value { value, expiresAt := 0, None; }
      value := value + 1;
      if expiresAt.None? { expiresAt := Some(now + PERIOD); }
      n := value;
      calls := calls + [now];
    }
  }

  datatype Verdict = Admitted | UserLimited | WorkspaceLimited

  /** `_check_rate_limits`: both counters are hit in one pipeline before either is looked at. */
  method CheckRateLimits(user: Counter, workspace: Counter, now: real) returns (v: Verdict)
    requires user != workspace && user.Valid() && workspace.Valid()
    requires user.calls != [] ==> user.calls[|user.calls| - 1] <= now
    requires workspace.calls != [] ==> workspace.calls[|workspace.calls| - 1] <= now
    modifies user, workspace
    ensures user.Valid() && workspace.Valid()
    ensures user.calls == old(user.calls) + [now] && workspace.calls == old(workspace.calls) + [now]
    ensures v.Admitted? <==> Count(user.calls, |user.calls| - 1) <= 60
                             && Count(workspace.calls, |workspace.calls| - 1) <= 500
    ensures v.UserLimited? <==> Count(user.calls, |user.calls| - 1) > 60
  {
    var u := user.Hit(now);
    var w := workspace.Hit(now);
    v := if u > USER_LIMIT then UserLimited else if w > WORKSPACE_LIMIT then WorkspaceLimited else Admitted;
  }
}
