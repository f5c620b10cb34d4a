/** The AI wrapper's limiter: one Lua script checks a tenant's and a user's sorted set and adds to both or neither.

    Both keys are built by the same pattern from an id, so a tenant and a user with equal ids would share one
    key; the results below do not assume they differ. */
module PairLimiter {
  import opened Prelude
  import opened SlidingWindow

  type Id = nat

  datatype Admission = Admission(tenant: Id, user: Id, time: real, member: Member)

  datatype Verdict = Admitted | TenantLimited(retryAfter: int) | UserLimited(retryAfter: int)

  /** `window` is the whole number of seconds passed by the caller. */
  datatype Limits = Limits(tenant: int, user: int, window: nat)

  // ---------------------------------------------------------------- the specification: the admitted history

  predicate Touches(a: Admission, key: Id) {
    a.tenant == key || a.user == key
  }

  /** The times of the admissions that touched a key. */
  function KeyLog(h: seq<Admission>, key: Id): seq<real> {
    if h == [] then []
    else
      var rest := KeyLog(h[..|h| - 1], key);
      if Touches(h[|h| - 1], key) then rest + [h[|h| - 1].time] else rest
  }

  function KeyMembers(h: seq<Admission>, key: Id): (r: seq<Member>)
    ensures |r| == |KeyLog(h, key)|
  {
    if h == [] then []
    else
      var rest := KeyMembers(h[..|h| - 1], key);
      if Touches(h[|h| - 1], key) then rest + [h[|h| - 1].member] else rest
  }

  function Wait(log: seq<real>, now: real, window: nat): int {
    match Oldest(log, now - window as real)
    case None => window
    case Some(o) => if Ceil(o + window as real - now) > 1 then Ceil(o + window as real - now) else 1
  }

  function DecidePair(h: seq<Admission>, tenant: Id, user: Id, now: real, l: Limits): Verdict {
    var cutoff := now - l.window as real;
    if Recent(KeyLog(h, tenant), cutoff) >= l.tenant then TenantLimited(Wait(KeyLog(h, tenant), now, l.window))
    else if Recent(KeyLog(h, user), cutoff) >= l.user then UserLimited(Wait(KeyLog(h, user), now, l.window))
    else Admitted
  }

  datatype Call = Call(tenant: Id, user: Id, time: real, member: Member)

  /** An admitted call joins the history, a denied one leaves no trace. */
  function NextHistory(h: seq<Admission>, c: Call, l: Limits): seq<Admission> {
    if DecidePair(h, c.tenant, c.user, c.time, l).Admitted?
    then h + [Admission(c.tenant, c.user, c.time, c.member)] else h
  }

  function HistoryAfter(calls: seq<Call>, l: Limits): seq<Admission> {
    if calls == [] then [] else NextHistory(HistoryAfter(calls[..|calls| - 1], l), calls[|calls| - 1], l)
  }

  ghost predicate InOrder(calls: seq<Call>) {
    forall i, j :: 0 <= i < j < |calls| ==> calls[i].time <= calls[j].time
  }

  ghost predicate HistoryBy(h: seq<Admission>, now: real) {
    && (forall i, j :: 0 <= i < j < |h| ==> h[i].time <= h[j].time)
    && (forall i :: 0 <= i < |h| ==> h[i].time <= now)
  }

  lemma {:induction false} HistoryOrdered(calls: seq<Call>, l: Limits)
    requires InOrder(calls)
    ensures if calls == [] then HistoryAfter(calls, l) == []
            else HistoryBy(HistoryAfter(calls, l), calls[|calls| - 1].time)
  {
    if calls != [] { HistoryOrdered(calls[..|calls| - 1], l); }
  }

  datatype Role = AsTenant | AsUser

  predicate Is(a: Admission, role: Role, id: Id) {
    match role
    case AsTenant => a.tenant == id
    case AsUser => a.user == id
  }

  /** Admissions in `[lo, hi)` in which `id` has the given role. */
  function CountBy(h: seq<Admission>, role: Role, id: Id, lo: real, hi: real): nat {
    if h == [] then 0
    else CountBy(h[..|h| - 1], role, id, lo, hi)
         + if Is(h[|h| - 1], role, id) && lo <= h[|h| - 1].time < hi then 1 else 0
  }

  lemma KeySnoc(h: seq<Admission>, a: Admission, key: Id)
    ensures KeyLog(h + [a], key) == if Touches(a, key) then KeyLog(h, key) + [a.time] else KeyLog(h, key)
    ensures KeyMembers(h + [a], key) == if Touches(a, key) then KeyMembers(h, key) + [a.member] else KeyMembers(h, key)
  {
    assert (h + [a])[..|h|] == h;
  }

  lemma RecentSnoc(log: seq<real>, t: real, cutoff: real)
    ensures Recent(log + [t], cutoff) == Recent(log, cutoff) + if t > cutoff then 1 else 0
  {
    assert (log + [t])[..|log|] == log;
  }

  lemma {:induction false} KeySeesAll(h: seq<Admission>, role: Role, id: Id, lo: real, hi: real, cutoff: real)
    requires cutoff < lo
    ensures CountBy(h, role, id, lo, hi) <= Recent(KeyLog(h, id), cutoff)
    decreases |h|
  {
    if h != [] {
      var init, last := h[..|h| - 1], h[|h| - 1];
      KeySeesAll(init, role, id, lo, hi, cutoff);
      RecentSnoc(KeyLog(init, id), last.time, cutoff);
      assert Is(last, role, id) ==> Touches(last, id);
    }
  }

  lemma CountSnoc(h: seq<Admission>, a: Admission, role: Role, id: Id, lo: real, hi: real)
    ensures CountBy(h + [a], role, id, lo, hi)
            == CountBy(h, role, id, lo, hi) + if Is(a, role, id) && lo <= a.time < hi then 1 else 0
  {
    assert (h + [a])[..|h|] == h;
  }

  function LimitOf(l: Limits, role: Role): int {
    match role case AsTenant => l.tenant case AsUser => l.user
  }

  function Cap(l: Limits, role: Role): nat {
    if LimitOf(l, role) > 0 then LimitOf(l, role) else 0
  }

  /** An admitted call finds room in every window that contains it. */
  lemma AdmissionFits(h: seq<Admission>, c: Call, l: Limits, role: Role, id: Id, a: real, b: real)
    requires b == a + l.window as real && CountBy(h, role, id, a, b) <= Cap(l, role)
    ensures CountBy(NextHistory(h, c, l), role, id, a, b) <= Cap(l, role)
  {
    if DecidePair(h, c.tenant, c.user, c.time, l).Admitted? {
      var adm := Admission(c.tenant, c.user, c.time, c.member);
      CountSnoc(h, adm, role, id, a, b);
      if Is(adm, role, id) && a <= c.time < b { KeySeesAll(h, role, id, a, b, c.time - l.window as real); }
    }
  }

  /** Safety over every run, with any mix of tenants and users: in no interval of one window's length are more
      than `tenant` calls of one tenant, or more than `user` calls of one user, admitted. */
  lemma {:induction false} WindowBounds(calls: seq<Call>, l: Limits, role: Role, id: Id, a: real)
    ensures CountBy(HistoryAfter(calls, l), role, id, a, a + l.window as real) <= Cap(l, role)
    decreases |calls|
  {
    if calls != [] {
      var n := |calls| - 1;
      WindowBounds(calls[..n], l, role, id, a);
      AdmissionFits(HistoryAfter(calls[..n], l), calls[n], l, role, id, a, a + l.window as real);
    }
  }

  /** A denial names the tenant whenever the tenant's history is full, and the user only when the tenant's is not. */
  lemma WhoIsNamed(h: seq<Admission>, tenant: Id, user: Id, now: real, l: Limits)
    ensures var v, cutoff := DecidePair(h, tenant, user, now, l), now - l.window as real;
            && (v.TenantLimited? <==> Recent(KeyLog(h, tenant), cutoff) >= l.tenant)
            && (v.UserLimited? <==>
                  Recent(KeyLog(h, tenant), cutoff) < l.tenant && Recent(KeyLog(h, user), cutoff) >= l.user)
            && (v.Admitted? <==> BothBelow(h, tenant, user, now, l))
  {
  }

  /** Both histories are under their limits at `now`. */
  predicate BothBelow(h: seq<Admission>, tenant: Id, user: Id, now: real, l: Limits) {
    && Recent(KeyLog(h, tenant), now - l.window as real) < l.tenant
    && Recent(KeyLog(h, user), now - l.window as real) < l.user
  }

  /** A denied caller who comes back before `retry_after` is denied by the same key again. */
  lemma NoUseRetryingEarlier(calls: seq<Call>, c: Call, l: Limits, k: int)
    requires InOrder(calls + [c]) && k >= 0
    ensures var h := HistoryAfter(calls, l);
            match DecidePair(h, c.tenant, c.user, c.time, l)
            case Admitted => true
            case TenantLimited(r) => k < r ==> Recent(KeyLog(h, c.tenant), c.time + k as real - l.window as real) >= l.tenant
            case UserLimited(r) => k < r ==> Recent(KeyLog(h, c.user), c.time + k as real - l.window as real) >= l.user
  {
    HistoryBefore(calls, c, l);
    NoUseOn(HistoryAfter(calls, l), c.tenant, c.user, c.time, l, k);
  }

  lemma NoUseOn(h: seq<Admission>, tenant: Id, user: Id, now: real, l: Limits, k: int)
    requires HistoryBy(h, now) && k >= 0
    ensures match DecidePair(h, tenant, user, now, l)
            case Admitted => true
            case TenantLimited(r) => k < r ==> Recent(KeyLog(h, tenant), now + k as real - l.window as real) >= l.tenant
            case UserLimited(r) => k < r ==> Recent(KeyLog(h, user), now + k as real - l.window as real) >= l.user
  {
    match DecidePair(h, tenant, user, now, l)
    case Admitted =>
    case TenantLimited(r) => if k < r { KeyStillFull(h, tenant, now, l.window, k); }
    case UserLimited(r) => if k < r { KeyStillFull(h, user, now, l.window, k); }
  }

  lemma InOrderInit(calls: seq<Call>, c: Call)
    requires InOrder(calls + [c])
    ensures InOrder(calls) && (calls != [] ==> calls[|calls| - 1].time <= c.time)
  {
    var all := calls + [c];
    assert forall i :: 0 <= i < |calls| ==> all[i] == calls[i];
    assert all[|calls|] == c;
  }

  lemma HistoryBefore(calls: seq<Call>, c: Call, l: Limits)
    requires InOrder(calls + [c])
    ensures HistoryBy(HistoryAfter(calls, l), c.time)
  {
    InOrderInit(calls, c);
    HistoryOrdered(calls, l);
  }

  lemma KeyStillFull(h: seq<Admission>, key: Id, now: real, window: nat, k: int)
    requires HistoryBy(h, now) && 0 <= k < Wait(KeyLog(h, key), now, window)
    ensures Recent(KeyLog(h, key), now + k as real - window as real) == Recent(KeyLog(h, key), now - window as real)
  {
    KeyLogOrdered(h, key, now, 0);
    StillFull(KeyLog(h, key), now, window, k);
  }

  lemma StillFull(log: seq<real>, now: real, window: nat, k: int)
    requires Sorted(log) && 0 <= k < Wait(log, now, window)
    ensures Recent(log, now + k as real - window as real) == Recent(log, now - window as real)
  {
    var c := now - window as real;
    OldestIsLeast(log, c);
    match Oldest(log, c)
    case None =>
      NoneRecent(log, c);
      NoneRecent(log, c + k as real);
    case Some(o) =>
      if k > 0 {
        CeilLeast(o + window as real - now, k);
        RecentKept(log, c, c + k as real, o);
      }
  }

  // ---------------------------------------------------------------- when a denied key has room again

  /** In an ordered log, `n` entries lie after a cutoff exactly when the `n`-th newest does. */
  lemma {:induction false} RecentIsTail(log: seq<real>, cutoff: real, n: nat)
    requires Sorted(log) && n >= 1
    ensures Recent(log, cutoff) >= n <==> n <= |log| && log[|log| - n] > cutoff
  {
    if log != [] {
      var init, last := log[..|log| - 1], log[|log| - 1];
      if last <= cutoff {
        NoneRecent(init, cutoff);
      } else if n > 1 {
        RecentIsTail(init, cutoff, n - 1);
      }
    }
  }

  lemma DeniedIsFull(h: seq<Admission>, c: Call, l: Limits, role: Role)
    requires DeniedAs(DecidePair(h, c.tenant, c.user, c.time, l), role)
    ensures Recent(KeyLog(h, KeyOf(c, role)), c.time - l.window as real) >= LimitOf(l, role)
    ensures DecidePair(h, c.tenant, c.user, c.time, l).retryAfter == Wait(KeyLog(h, KeyOf(c, role)), c.time, l.window)
  {
  }

  lemma RoomIff(log: seq<real>, before: real, cutoff: real, n: int)
    requires Sorted(log) && Recent(log, before) >= n
    ensures Recent(log, cutoff) < n <==> 1 <= n <= |log| && log[|log| - n] <= cutoff
  {
    if n >= 1 {
      RecentIsTail(log, before, n);
      RecentIsTail(log, cutoff, n);
    }
  }

  function KeyOf(c: Call, role: Role): Id {
    match role case AsTenant => c.tenant case AsUser => c.user
  }

  predicate DeniedAs(v: Verdict, role: Role) {
    match role case AsTenant => v.TenantLimited? case AsUser => v.UserLimited?
  }

  lemma KeySorted(h: seq<Admission>, key: Id, now: real)
    requires HistoryBy(h, now)
    ensures Sorted(KeyLog(h, key))
  {
    KeyLogOrdered(h, key, now, 0);
  }

  lemma RoomLater(h: seq<Admission>, id: Id, now: real, before: real, cutoff: real, n: int)
    requires HistoryBy(h, now) && Recent(KeyLog(h, id), before) >= n
    ensures var log := KeyLog(h, id);
            Recent(log, cutoff) < n <==> 1 <= n <= |log| && log[|log| - n] <= cutoff
  {
    KeySorted(h, id, now);
    RoomIff(KeyLog(h, id), before, cutoff, n);
  }

  /** The key that denied a call has room `k` seconds later exactly when as many of its newest admissions as the limit
      allows no longer all lie in the window; with a limit of zero or less it never has. */
  lemma RoomAfterIff(calls: seq<Call>, c: Call, l: Limits, role: Role, k: nat)
    requires InOrder(calls + [c])
    requires DeniedAs(DecidePair(HistoryAfter(calls, l), c.tenant, c.user, c.time, l), role)
    ensures var log, n := KeyLog(HistoryAfter(calls, l), KeyOf(c, role)), LimitOf(l, role);
            var cutoff := c.time + k as real - l.window as real;
            Recent(log, cutoff) < n <==> 1 <= n <= |log| && log[|log| - n] <= cutoff
  {
    HistoryBefore(calls, c, l);
    var h, id := HistoryAfter(calls, l), KeyOf(c, role);
    DeniedIsFull(h, c, l, role);
    RoomLater(h, id, c.time, c.time - l.window as real, c.time + k as real - l.window as real, LimitOf(l, role));
  }

  /** Wherever the id turns up, it does so in this role. */
  ghost predicate OneRole(calls: seq<Call>, role: Role, id: Id) {
    forall i :: 0 <= i < |calls| && (calls[i].tenant == id || calls[i].user == id) ==> KeyOf(calls[i], role) == id
  }

  lemma {:induction false} OneRoleAdmitted(calls: seq<Call>, l: Limits, role: Role, id: Id)
    requires OneRole(calls, role, id)
    ensures forall a :: a in HistoryAfter(calls, l) && Touches(a, id) ==> Is(a, role, id)
  {
    if calls != [] { OneRoleAdmitted(calls[..|calls| - 1], l, role, id); }
  }

  lemma {:induction false} RecentByRole(h: seq<Admission>, role: Role, id: Id, cutoff: real, lo: real, hi: real)
    requires forall a :: a in h && Touches(a, id) ==> Is(a, role, id)
    requires forall a :: a in h && Touches(a, id) && a.time > cutoff ==> lo <= a.time < hi
    ensures Recent(KeyLog(h, id), cutoff) <= CountBy(h, role, id, lo, hi)
    decreases |h|
  {
    if h != [] {
      var init, last := h[..|h| - 1], h[|h| - 1];
      assert last in h && forall a :: a in init ==> a in h;
      RecentByRole(init, role, id, cutoff, lo, hi);
      RecentSnoc(KeyLog(init, id), last.time, cutoff);
    }
  }

  lemma {:induction false} TouchedTimes(h: seq<Admission>, key: Id, a: Admission)
    requires a in h && Touches(a, key)
    ensures a.time in KeyLog(h, key)
  {
    if a != h[|h| - 1] { TouchedTimes(h[..|h| - 1], key, a); }
  }

  /** A key used in one role only is never over its limit. */
  lemma OneRoleFits(calls: seq<Call>, now: real, l: Limits, role: Role, id: Id, h: seq<Admission>)
    requires OneRole(calls, role, id) && h == HistoryAfter(calls, l) && HistoryBy(h, now)
    ensures Recent(KeyLog(h, id), now - l.window as real) <= Cap(l, role)
  {
    OneRoleAdmitted(calls, l, role, id);
    AllWindows(calls, l, role, id, h);
    LogFits(h, now, l.window, role, id, Cap(l, role));
  }

  lemma AllWindows(calls: seq<Call>, l: Limits, role: Role, id: Id, h: seq<Admission>)
    requires h == HistoryAfter(calls, l)
    ensures forall a: real, b: real :: b == a + l.window as real ==> CountBy(h, role, id, a, b) <= Cap(l, role)
  {
    forall a: real, b: real | b == a + l.window as real ensures CountBy(h, role, id, a, b) <= Cap(l, role) {
      WindowBounds(calls, l, role, id, a);
    }
  }

  lemma LogFits(h: seq<Admission>, now: real, window: nat, role: Role, id: Id, cap: nat)
    requires HistoryBy(h, now)
    requires forall a :: a in h && Touches(a, id) ==> Is(a, role, id)
    requires forall a: real, b: real :: b == a + window as real ==> CountBy(h, role, id, a, b) <= cap
    ensures Recent(KeyLog(h, id), now - window as real) <= cap
  {
    var cutoff := now - window as real;
    KeySorted(h, id, now);
    OldestIsLeast(KeyLog(h, id), cutoff);
    match Oldest(KeyLog(h, id), cutoff)
    case None => NoneRecent(KeyLog(h, id), cutoff);
    case Some(o) => AllInOneWindow(h, now, window, role, id, o);
  }

  lemma AllInOneWindow(h: seq<Admission>, now: real, window: nat, role: Role, id: Id, o: real)
    requires HistoryBy(h, now) && IsOldest(KeyLog(h, id), now - window as real, o)
    requires forall a :: a in h && Touches(a, id) ==> Is(a, role, id)
    ensures Recent(KeyLog(h, id), now - window as real) <= CountBy(h, role, id, o, o + window as real)
  {
    var cutoff := now - window as real;
    forall a | a in h && Touches(a, id) && a.time > cutoff ensures o <= a.time < o + window as real {
      TouchedTimes(h, id, a);
    }
    RecentByRole(h, role, id, cutoff, o, o + window as real);
  }

  /** For a key used in one role only, `retry_after` is the least whole number of seconds, at least one, after which
      it has room. */
  lemma RetryAfterIsExact(calls: seq<Call>, c: Call, l: Limits, role: Role, k: nat)
    requires InOrder(calls + [c]) && OneRole(calls, role, KeyOf(c, role)) && LimitOf(l, role) >= 1
    requires DeniedAs(DecidePair(HistoryAfter(calls, l), c.tenant, c.user, c.time, l), role)
    ensures var h := HistoryAfter(calls, l);
            k >= DecidePair(h, c.tenant, c.user, c.time, l).retryAfter
            <==> k >= 1 && Recent(KeyLog(h, KeyOf(c, role)), c.time + k as real - l.window as real) < LimitOf(l, role)
  {
    CapHolds(calls, c, l, role, HistoryAfter(calls, l));
    ExactOnKey(HistoryAfter(calls, l), c, l, role, k);
  }

  lemma CapHolds(calls: seq<Call>, c: Call, l: Limits, role: Role, h: seq<Admission>)
    requires InOrder(calls + [c]) && OneRole(calls, role, KeyOf(c, role)) && h == HistoryAfter(calls, l)
    ensures HistoryBy(h, c.time)
    ensures Recent(KeyLog(h, KeyOf(c, role)), c.time - l.window as real) <= Cap(l, role)
  {
    HistoryBefore(calls, c, l);
    OneRoleFits(calls, c.time, l, role, KeyOf(c, role), h);
  }

  lemma ExactOnKey(h: seq<Admission>, c: Call, l: Limits, role: Role, k: nat)
    requires HistoryBy(h, c.time) && LimitOf(l, role) >= 1
    requires DeniedAs(DecidePair(h, c.tenant, c.user, c.time, l), role)
    requires Recent(KeyLog(h, KeyOf(c, role)), c.time - l.window as real) <= Cap(l, role)
    ensures k >= DecidePair(h, c.tenant, c.user, c.time, l).retryAfter
            <==> k >= 1 && Recent(KeyLog(h, KeyOf(c, role)), c.time + k as real - l.window as real) < LimitOf(l, role)
  {
    KeySorted(h, KeyOf(c, role), c.time);
    DeniedIsFull(h, c, l, role);
    WaitIsExact(KeyLog(h, KeyOf(c, role)), c.time, l.window, LimitOf(l, role), k);
  }

  lemma WaitIsExact(log: seq<real>, now: real, window: nat, limit: int, k: nat)
    requires Sorted(log) && limit >= 1 && Recent(log, now - window as real) == limit
    ensures k >= Wait(log, now, window) <==> k >= 1 && Recent(log, now + k as real - window as real) < limit
  {
    OldestIsLeast(log, now - window as real);
    if Oldest(log, now - window as real).None? { NoneRecent(log, now - window as real); }
    RetryOn(log, limit, window as real, now, k);
  }

  lemma OneLog(h: seq<Admission>, a: Admission, key: Id)
    requires h == [a]
    ensures KeyLog(h, key) == if Touches(a, key) then [a.time] else []
  {
    KeySnoc([], a, key);
    assert h == [] + [a];
  }

  lemma TwoLog(h: seq<Admission>, a: Admission, b: Admission, key: Id)
    requires h == [a, b]
    ensures KeyLog(h, key)
            == (if Touches(a, key) then [a.time] else []) + if Touches(b, key) then [b.time] else []
  {
    OneLog([a], a, key);
    KeySnoc([a], b, key);
    assert h == [a] + [b];
  }

  lemma FirstAdmitted(l: Limits, calls: seq<Call>, c: Call, first: Admission)
    requires calls == [c] && l.tenant > 0 && l.user > 0
    requires first == Admission(c.tenant, c.user, c.time, c.member)
    ensures InOrder(calls) && HistoryAfter(calls, l) == [first]
  {
    assert calls == [] + [c];
    HistoryStep([], c, l);
  }

  lemma SecondFinds(h: seq<Admission>, first: Admission, d: Call, l: Limits)
    requires h == [first] && l.tenant > 1 && l.user > 0 && !Touches(first, d.user)
    ensures DecidePair(h, d.tenant, d.user, d.time, l).Admitted?
  {
    OneLog(h, first, d.tenant);
    OneLog(h, first, d.user);
    RecentAtMost(KeyLog(h, d.tenant), d.time - l.window as real);
    RecentAtMost(KeyLog(h, d.user), d.time - l.window as real);
  }

  /** Two calls that find fewer entries than their limits are both admitted. */
  lemma BothAdmitted(l: Limits, calls: seq<Call>, c: Call, d: Call, h: seq<Admission>, first: Admission)
    requires calls == [c, d] && c.time <= d.time && l.tenant > 1 && l.user > 0
    requires first == Admission(c.tenant, c.user, c.time, c.member) && !Touches(first, d.user)
    requires h == [first, Admission(d.tenant, d.user, d.time, d.member)]
    ensures InOrder(calls) && HistoryAfter(calls, l) == h
  {
    assert calls == [c] + [d];
    FirstAdmitted(l, [c], c, first);
    SecondFinds([first], first, d, l);
    HistoryStep([c], d, l);
  }

  lemma {:induction false} RecentAtMost(log: seq<real>, cutoff: real)
    ensures Recent(log, cutoff) <= |log|
  {
    if log != [] { RecentAtMost(log[..|log| - 1], cutoff); }
  }

  lemma TwoEntries(log: seq<real>)
    requires log == [0.0, 1.0]
    ensures Recent(log, -9.0) == 2 && Oldest(log, -9.0) == Some(0.0)
    ensures Recent(log, 0.0) == 1 && Oldest(log, 0.0) == Some(1.0)
  {
    assert log == [0.0] + [1.0] && [0.0] == [] + [0.0] && log[1..] == [1.0];
    RecentSnoc([], 0.0, -9.0);
    RecentSnoc([], 0.0, 0.0);
    RecentSnoc([0.0], 1.0, -9.0);
    RecentSnoc([0.0], 1.0, 0.0);
  }

  lemma TwoVerdicts(h: seq<Admission>, l: Limits, tenant: Id, shared: Id)
    requires l == Limits(2, 1, 10) && KeyLog(h, tenant) == [] && KeyLog(h, shared) == [0.0, 1.0]
    ensures DecidePair(h, tenant, shared, 1.0, l) == UserLimited(9)
    ensures DecidePair(h, tenant, shared, 10.0, l) == UserLimited(1)
  {
    TwoEntries(KeyLog(h, shared));
    RecentAtMost(KeyLog(h, tenant), -9.0);
    RecentAtMost(KeyLog(h, tenant), 0.0);
  }

  /** A key shared by a tenant and a user can hold more than the smaller limit, and then `retry_after` comes too early:
      the id is admitted twice as a tenant, is denied as a user for nine seconds, and is still full after them. */
  lemma SharedKeyStillFull(l: Limits, calls: seq<Call>, shared: Id, tenant: Id, user1: Id, user2: Id)
    requires l == Limits(2, 1, 10) && NoDup([shared, tenant, user1, user2])
    requires calls == [Call(shared, user1, 0.0, 0), Call(shared, user2, 1.0, 1)]
    ensures InOrder(calls) && DecidePair(HistoryAfter(calls, l), tenant, shared, 1.0, l) == UserLimited(9)
    ensures DecidePair(HistoryAfter(calls, l), tenant, shared, 10.0, l) == UserLimited(1)
  {
    var ids := [shared, tenant, user1, user2];
    assert ids[0] != ids[1] && ids[0] != ids[2] && ids[0] != ids[3] && ids[1] != ids[2] && ids[1] != ids[3];
    assert ids[2] != ids[3];
    var first, second := Admission(shared, user1, 0.0, 0), Admission(shared, user2, 1.0, 1);
    BothAdmitted(l, calls, calls[0], calls[1], [first, second], first);
    TwoLog([first, second], first, second, tenant);
    TwoLog([first, second], first, second, shared);
    TwoVerdicts([first, second], l, tenant, shared);
  }

  // ---------------------------------------------------------------- the two sorted sets

  datatype RateSet = RateSet(zset: map<Member, real>, expiresAt: Option<real>)

  function SetOf(sets: map<Id, RateSet>, key: Id): RateSet {
    if key in sets then sets[key] else RateSet(map[], None)
  }

  /** The set stored under `key` stands for the history of that key. */
  ghost predicate KeyInv(h: seq<Admission>, sets: map<Id, RateSet>, key: Id, horizon: real, window: nat) {
    && Represents(KeyLog(h, key), KeyMembers(h, key), SetOf(sets, key).zset, horizon)
    && (SetOf(sets, key).expiresAt.Some? ==>
          AllAtMost(KeyLog(h, key), SetOf(sets, key).expiresAt.value - (Ceil(window as real) + 1) as real))
  }

  ghost predicate AllKeys(h: seq<Admission>, sets: map<Id, RateSet>, horizon: real, window: nat) {
    forall k {:trigger KeyInv(h, sets, k, horizon, window)} :: KeyInv(h, sets, k, horizon, window)
  }

  ghost predicate FreshMember(h: seq<Admission>, m: Member) {
    forall i :: 0 <= i < |h| ==> h[i].member != m
  }

  lemma {:induction false} KeyLogOrdered(h: seq<Admission>, key: Id, now: real, m: Member)
    requires HistoryBy(h, now)
    ensures Sorted(KeyLog(h, key)) && AllAtMost(KeyLog(h, key), now)
    ensures FreshMember(h, m) ==> m !in KeyMembers(h, key)
  {
    if h != [] { KeyLogOrdered(h[..|h| - 1], key, h[|h| - 1].time, m); }
  }

  lemma RepresentsLater(log: seq<real>, members: seq<Member>, zset: map<Member, real>, h1: real, h2: real)
    requires Represents(log, members, zset, h1) && h1 <= h2
    ensures Represents(log, members, zset, h2)
  {
  }

  /** Pruning one key: the count and the oldest entry are those of the key's history. */
  lemma PruneKey(h: seq<Admission>, sets: map<Id, RateSet>, key: Id, horizon: real, window: nat, now: real,
                 p: map<Member, real>)
    requires KeyInv(h, sets, key, horizon, window) && HistoryBy(h, now) && horizon <= now - window as real
    requires p == Pruned(Surviving(SetOf(sets, key).zset, SetOf(sets, key).expiresAt, now), now - window as real)
    ensures Represents(KeyLog(h, key), KeyMembers(h, key), p, now - window as real)
    ensures |p| == Recent(KeyLog(h, key), now - window as real)
    ensures OldestOf(p) == Oldest(KeyLog(h, key), now - window as real)
  {
    KeyLogOrdered(h, key, now, 0);
    PruneStep(KeyLog(h, key), KeyMembers(h, key), SetOf(sets, key).zset, SetOf(sets, key).expiresAt,
              horizon, now, window as real, p);
  }

  /** A key that the new admission touches: the member joins the pruned set and the expiry is renewed. */
  lemma TouchedKey(h: seq<Admission>, a: Admission, key: Id, p: map<Member, real>, window: nat)
    requires Touches(a, key) && HistoryBy(h, a.time) && FreshMember(h, a.member)
    requires Represents(KeyLog(h, key), KeyMembers(h, key), p, a.time - window as real)
    ensures Represents(KeyLog(h + [a], key), KeyMembers(h + [a], key), p[a.member := a.time], a.time - window as real)
    ensures AllAtMost(KeyLog(h + [a], key), a.time)
  {
    KeySnoc(h, a, key);
    KeyLogOrdered(h, key, a.time, a.member);
    AddMember(KeyLog(h, key), KeyMembers(h, key), p, a.time - window as real, a.time, a.member);
  }

  /** Expiry and ZREMRANGEBYSCORE on one key. */
  function PruneSet(sets: map<Id, RateSet>, key: Id, now: real, window: nat): map<Id, RateSet> {
    var s := SetOf(sets, key);
    sets[key := RateSet(Pruned(Surviving(s.zset, s.expiresAt, now), now - window as real), s.expiresAt)]
  }

  /** Pruning one key moves the horizon of all keys up to the cutoff. */
  lemma PruneOne(h: seq<Admission>, sets: map<Id, RateSet>, key: Id, horizon: real, window: nat, now: real,
                 p: map<Member, real>, sets': map<Id, RateSet>)
    requires AllKeys(h, sets, horizon, window) && HistoryBy(h, now) && horizon <= now - window as real
    requires p == Pruned(Surviving(SetOf(sets, key).zset, SetOf(sets, key).expiresAt, now), now - window as real)
    requires sets' == sets[key := RateSet(p, SetOf(sets, key).expiresAt)]
    ensures AllKeys(h, sets', now - window as real, window)
    ensures |p| == Recent(KeyLog(h, key), now - window as real)
    ensures OldestOf(p) == Oldest(KeyLog(h, key), now - window as real)
  {
    var cutoff := now - window as real;
    assert KeyInv(h, sets, key, horizon, window);
    PruneKey(h, sets, key, horizon, window, now, p);
    forall k ensures KeyInv(h, sets', k, cutoff, window) {
      assert KeyInv(h, sets, k, horizon, window);
      if k != key {
        RepresentsLater(KeyLog(h, k), KeyMembers(h, k), SetOf(sets, k).zset, horizon, cutoff);
      }
    }
  }

  /** ZADD and EXPIRE on one key. */
  function Added(sets: map<Id, RateSet>, key: Id, m: Member, now: real, window: nat): map<Id, RateSet> {
    sets[key := RateSet(SetOf(sets, key).zset[m := now], Some(now + (Ceil(window as real) + 1) as real))]
  }

  /** What both additions leave under one key. */
  lemma AddedAt(sets: map<Id, RateSet>, a: Admission, window: nat, key: Id)
    ensures SetOf(Added(Added(sets, a.tenant, a.member, a.time, window), a.user, a.member, a.time, window), key)
            == if Touches(a, key)
               then RateSet(SetOf(sets, key).zset[a.member := a.time], Some(a.time + (Ceil(window as real) + 1) as real))
               else SetOf(sets, key)
  {
  }

  lemma AddAtKey(h: seq<Admission>, a: Admission, sets: map<Id, RateSet>, after: map<Id, RateSet>, window: nat,
                 cutoff: real, key: Id)
    requires cutoff == a.time - window as real && KeyInv(h, sets, key, cutoff, window)
    requires HistoryBy(h, a.time) && FreshMember(h, a.member)
    requires SetOf(after, key)
             == if Touches(a, key)
                then RateSet(SetOf(sets, key).zset[a.member := a.time], Some(a.time + (Ceil(window as real) + 1) as real))
                else SetOf(sets, key)
    ensures KeyInv(h + [a], after, key, cutoff, window)
  {
    KeySnoc(h, a, key);
    if Touches(a, key) { TouchedKey(h, a, key, SetOf(sets, key).zset, window); }
  }

  /** Adding the admission to both sets is adding it to the history. */
  lemma AddBoth(h: seq<Admission>, a: Admission, sets: map<Id, RateSet>, window: nat)
    requires AllKeys(h, sets, a.time - window as real, window) && HistoryBy(h, a.time) && FreshMember(h, a.member)
    ensures AllKeys(h + [a], Added(Added(sets, a.tenant, a.member, a.time, window), a.user, a.member, a.time, window),
                    a.time - window as real, window)
  {
    var after := Added(Added(sets, a.tenant, a.member, a.time, window), a.user, a.member, a.time, window);
    var cutoff, longer := a.time - window as real, h + [a];
    forall k ensures KeyInv(longer, after, k, cutoff, window) {
      assert KeyInv(h, sets, k, cutoff, window);
      AddedAt(sets, a, window, k);
      AddAtKey(h, a, sets, after, window, cutoff, k);
    }
  }

  /** What the script does to the two sets and what it answers. */
  ghost function BothPruned(sets: map<Id, RateSet>, tenant: Id, user: Id, now: real, window: nat): map<Id, RateSet> {
    PruneSet(PruneSet(sets, tenant, now, window), user, now, window)
  }

  ghost function WaitOf(zset: map<Member, real>, now: real, window: nat): int {
    match OldestOf(zset)
    case None => window
    case Some(o) => if Ceil(o + window as real - now) > 1 then Ceil(o + window as real - now) else 1
  }

  ghost function ScriptVerdict(p: map<Id, RateSet>, tenant: Id, user: Id, now: real, l: Limits): Verdict {
    if |SetOf(p, tenant).zset| >= l.tenant then TenantLimited(WaitOf(SetOf(p, tenant).zset, now, l.window))
    else if |SetOf(p, user).zset| >= l.user then UserLimited(WaitOf(SetOf(p, user).zset, now, l.window))
    else Admitted
  }

  /** Both prunings. */
  lemma PruneBoth(h: seq<Admission>, sets: map<Id, RateSet>, tenant: Id, user: Id, horizon: real, now: real,
                  window: nat, cutoff: real, p1: map<Id, RateSet>, p: map<Id, RateSet>)
    requires AllKeys(h, sets, horizon, window) && HistoryBy(h, now)
    requires horizon <= cutoff == now - window as real
    requires p1 == PruneSet(sets, tenant, now, window) && p == PruneSet(p1, user, now, window)
    ensures AllKeys(h, p, cutoff, window)
  {
    PruneOne(h, sets, tenant, horizon, window, now, SetOf(p1, tenant).zset, p1);
    PruneOne(h, p1, user, cutoff, window, now, SetOf(p, user).zset, p);
  }

  /** ZCARD and ZRANGE of a pruned key speak of the history of the key. */
  lemma PrunedKey(h: seq<Admission>, p: map<Id, RateSet>, key: Id, cutoff: real, window: nat)
    requires AllKeys(h, p, cutoff, window) && Sorted(KeyLog(h, key))
    requires forall m :: m in SetOf(p, key).zset ==> SetOf(p, key).zset[m] > cutoff
    ensures |SetOf(p, key).zset| == Recent(KeyLog(h, key), cutoff)
    ensures OldestOf(SetOf(p, key).zset) == Oldest(KeyLog(h, key), cutoff)
  {
    assert KeyInv(h, p, key, cutoff, window);
    var z := SetOf(p, key).zset;
    assert Pruned(z, cutoff) == z;
    PruneStep(KeyLog(h, key), KeyMembers(h, key), z, None, cutoff, cutoff, 0.0, z);
  }

  lemma WaitAgrees(log: seq<real>, zset: map<Member, real>, now: real, window: nat)
    requires OldestOf(zset) == Oldest(log, now - window as real)
    ensures WaitOf(zset, now, window) == Wait(log, now, window)
  {
  }

  /** The script's answer from the pruned sets is the decision on the two histories. */
  lemma VerdictRefines(h: seq<Admission>, p: map<Id, RateSet>, tenant: Id, user: Id, now: real, l: Limits, cutoff: real)
    requires cutoff == now - l.window as real
    requires |SetOf(p, tenant).zset| == Recent(KeyLog(h, tenant), cutoff)
    requires OldestOf(SetOf(p, tenant).zset) == Oldest(KeyLog(h, tenant), cutoff)
    requires |SetOf(p, user).zset| == Recent(KeyLog(h, user), cutoff)
    requires OldestOf(SetOf(p, user).zset) == Oldest(KeyLog(h, user), cutoff)
    ensures ScriptVerdict(p, tenant, user, now, l) == DecidePair(h, tenant, user, now, l)
  {
    WaitAgrees(KeyLog(h, tenant), SetOf(p, tenant).zset, now, l.window);
    WaitAgrees(KeyLog(h, user), SetOf(p, user).zset, now, l.window);
  }

  lemma HistoryStep(calls: seq<Call>, c: Call, l: Limits)
    requires InOrder(calls) && (calls != [] ==> calls[|calls| - 1].time <= c.time)
    ensures InOrder(calls + [c])
    ensures HistoryAfter(calls + [c], l)
            == if DecidePair(HistoryAfter(calls, l), c.tenant, c.user, c.time, l).Admitted?
               then HistoryAfter(calls, l) + [Admission(c.tenant, c.user, c.time, c.member)] else HistoryAfter(calls, l)
  {
    assert (calls + [c])[..|calls|] == calls;
  }

  /** Before the first call every horizon will do. */
  lemma EmptyHorizon(h: seq<Admission>, sets: map<Id, RateSet>, h1: real, h2: real, window: nat, empty: bool)
    requires AllKeys(h, sets, h1, window) && (if empty then h == [] else h1 == h2)
    ensures AllKeys(h, sets, h2, window)
  {
    forall k ensures KeyInv(h, sets, k, h2, window) { assert KeyInv(h, sets, k, h1, window); }
  }

  ghost function HorizonOf(calls: seq<Call>, window: nat): real {
    if calls == [] then 0.0 else calls[|calls| - 1].time - window as real
  }

  /** The state of the sets after the script has run for `calls`. */
  ghost predicate SetsInv(calls: seq<Call>, sets: map<Id, RateSet>, l: Limits) {
    InOrder(calls) && AllKeys(HistoryAfter(calls, l), sets, HorizonOf(calls, l.window), l.window)
  }

  ghost function ScriptSets(p: map<Id, RateSet>, c: Call, l: Limits): map<Id, RateSet> {
    if ScriptVerdict(p, c.tenant, c.user, c.time, l).Admitted?
    then Added(Added(p, c.tenant, c.member, c.time, l.window), c.user, c.member, c.time, l.window) else p
  }

  /** One call of the script, on the sets and on the history. */
  lemma ScriptRefinesPair(calls: seq<Call>, sets: map<Id, RateSet>, c: Call, l: Limits, p: map<Id, RateSet>)
    requires SetsInv(calls, sets, l) && (calls != [] ==> calls[|calls| - 1].time <= c.time)
    requires FreshMember(HistoryAfter(calls, l), c.member)
    requires p == BothPruned(sets, c.tenant, c.user, c.time, l.window)
    ensures ScriptVerdict(p, c.tenant, c.user, c.time, l)
            == DecidePair(HistoryAfter(calls, l), c.tenant, c.user, c.time, l)
    ensures SetsInv(calls + [c], ScriptSets(p, c, l), l)
  {
    var h, cutoff := HistoryAfter(calls, l), c.time - l.window as real;
    PairPruned(calls, sets, c, l, p, h, cutoff);
    HistoryStep(calls, c, l);
    HistoryOrdered(calls, l);
    SetsAfter(h, p, c, l, cutoff);
    assert HorizonOf(calls + [c], l.window) == cutoff;
  }

  lemma SetsAfter(h: seq<Admission>, p: map<Id, RateSet>, c: Call, l: Limits, cutoff: real)
    requires AllKeys(h, p, cutoff, l.window) && cutoff == c.time - l.window as real
    requires h == [] || HistoryBy(h, c.time)
    requires FreshMember(h, c.member)
    requires ScriptVerdict(p, c.tenant, c.user, c.time, l) == DecidePair(h, c.tenant, c.user, c.time, l)
    ensures AllKeys(if DecidePair(h, c.tenant, c.user, c.time, l).Admitted?
                    then h + [Admission(c.tenant, c.user, c.time, c.member)] else h,
                    ScriptSets(p, c, l), cutoff, l.window)
  {
    if DecidePair(h, c.tenant, c.user, c.time, l).Admitted? {
      AddBoth(h, Admission(c.tenant, c.user, c.time, c.member), p, l.window);
    }
  }

  lemma PairPruned(calls: seq<Call>, sets: map<Id, RateSet>, c: Call, l: Limits, p: map<Id, RateSet>,
                   h: seq<Admission>, cutoff: real)
    requires SetsInv(calls, sets, l) && (calls != [] ==> calls[|calls| - 1].time <= c.time)
    requires p == BothPruned(sets, c.tenant, c.user, c.time, l.window)
    requires h == HistoryAfter(calls, l) && cutoff == c.time - l.window as real
    ensures AllKeys(h, p, cutoff, l.window)
    ensures ScriptVerdict(p, c.tenant, c.user, c.time, l) == DecidePair(h, c.tenant, c.user, c.time, l)
  {
    HistoryOrdered(calls, l);
    assert HistoryBy(h, c.time);
    var from := if calls == [] then cutoff else HorizonOf(calls, l.window);
    EmptyHorizon(h, sets, HorizonOf(calls, l.window), from, l.window, calls == []);
    PruneBoth(h, sets, c.tenant, c.user, from, c.time, l.window, cutoff,
              PruneSet(sets, c.tenant, c.time, l.window), p);
    KeyLogOrdered(h, c.tenant, c.time, 0);
    KeyLogOrdered(h, c.user, c.time, 0);
    PrunedKey(h, p, c.tenant, cutoff, l.window);
    PrunedKey(h, p, c.user, cutoff, l.window);
    VerdictRefines(h, p, c.tenant, c.user, c.time, l, cutoff);
  }

  class PairLimiter {
    const limits: Limits
    var sets: map<Id, RateSet>
    ghost var calls: seq<Call>

    ghost function History(): seq<Admission>
      reads this
    {
      HistoryAfter(calls, limits)
    }

    ghost predicate Valid()
      reads this
    {
      SetsInv(calls, sets, limits)
    }

    constructor (l: Limits)
      ensures Valid() && limits == l && calls == []
    {
      limits := l;
      sets := map[];
      calls := [];
      new;
      forall k ensures KeyInv([], sets, k, 0.0, limits.window) {
        assert KeyLog([], k) == [];
      }
    }

    method WaitFor(key: Id, now: real) returns (wait: int)
      ensures wait == WaitOf(SetOf(sets, key).zset, now, limits.window)
    {
      var oldest := OldestScore(SetOf(sets, key).zset);
      wait := limits.window;
      if oldest.Some? {
        wait := Ceil(oldest.value + limits.window as real - now);
        if wait < 1 { wait := 1; }
      }
    }

    /** `_LUA_ATOMIC_CHECK_AND_ADD`. */
    method Script(tenant: Id, user: Id, now: real, member: Member) returns (v: Verdict)
      modifies this`sets
      ensures var p := BothPruned(old(sets), tenant, user, now, limits.window);
              && v == ScriptVerdict(p, tenant, user, now, limits)
              && sets == if v.Admitted?
                         then Added(Added(p, tenant, member, now, limits.window), user, member, now, limits.window)
                         else p
    {
      sets := PruneSet(sets, tenant, now, limits.window);
      sets := PruneSet(sets, user, now, limits.window);
      if |SetOf(sets, tenant).zset| >= limits.tenant {
        var wait := WaitFor(tenant, now);
        return TenantLimited(wait);
      }
      if |SetOf(sets, user).zset| >= limits.user {
        var wait := WaitFor(user, now);
        return UserLimited(wait);
      }
      sets := Added(sets, tenant, member, now, limits.window);
      sets := Added(sets, user, member, now, limits.window);
      return Admitted;
    }

    /** One evaluation of the script: the answer is that of the two histories; an admission enters both sets, a denial
        neither. */
    method Eval(tenant: Id, user: Id, now: real, member: Member) returns (v: Verdict)
      requires Valid() && FreshMember(History(), member)
      requires calls != [] ==> calls[|calls| - 1].time <= now
      modifies this
      ensures Valid() && calls == old(calls) + [Call(tenant, user, now, member)]
      ensures v == DecidePair(old(History()), tenant, user, now, limits)
      ensures v.Admitted? <==> BothBelow(old(History()), tenant, user, now, limits)
      ensures History() == if v.Admitted? then old(History()) + [Admission(tenant, user, now, member)]
                           else old(History())
    {
      ghost var c := Call(tenant, user, now, member);
      ScriptRefinesPair(calls, sets, c, limits, BothPruned(sets, tenant, user, now, limits.window));
      HistoryStep(calls, c, limits);
      v := Script(tenant, user, now, member);
      calls := calls + [c];
    }

    /** `check_rate_limit`: an outage lets the call through and records nothing. */
    method CheckRateLimit(tenant: Id, user: Id, now: real, member: Member, redisUp: bool) returns (v: Verdict)
      requires Valid() && FreshMember(History(), member)
      requires calls != [] ==> calls[|calls| - 1].time <= now
      modifies this
      ensures Valid()
      ensures redisUp ==> calls == old(calls) + [Call(tenant, user, now, member)]
      ensures redisUp ==> v == DecidePair(old(History()), tenant, user, now, limits)
      ensures redisUp ==> (v.Admitted? <==> BothBelow(old(History()), tenant, user, now, limits))
      ensures !redisUp ==> v == Admitted && calls == old(calls) && sets == old(sets)
    {
      if !redisUp {
        return Admitted;
      }
      v := Eval(tenant, user, now, member);
    }
  }
}
