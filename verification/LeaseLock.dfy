/** The Redis lock of background tasks: SET NX EX under a fresh token, released by compare-and-delete. Any number of
    processes poll, hold, overrun and release in any interleaving. */
module LeaseLock {
  import opened Prelude

  datatype Lease = Lease(token: nat, until: real)

  /** One critical section: the lease it was entered under and, once the block has exited, when. */
  datatype Section = Section(token: nat, start: real, until: real, left: Option<real>)

  /** The key in Redis, the time, and every section entered so far, in order of entry. */
  datatype World = World(now: real, key: Option<Lease>, sections: seq<Section>)

  datatype Step =
    | Tick(elapsed: real)
    | TryAcquire(token: nat, timeout: real)
    | Leave(i: nat)
    | Release(i: nat)

  predicate Live(key: Option<Lease>, now: real) {
    key.Some? && now < key.value.until
  }

  /** SET NX EX. */
  function SetNx(key: Option<Lease>, now: real, token: nat, timeout: real): Option<Lease> {
    if Live(key, now) then key else Some(Lease(token, now + timeout))
  }

  /** The release script. */
  function CompareAndDelete(key: Option<Lease>, now: real, token: nat): Option<Lease> {
    if Live(key, now) && key.value.token == token then None else key
  }

  /** Tokens are fresh; a block exits once; the release script follows the exit, at any later time. */
  ghost predicate Enabled(w: World, s: Step) {
    match s
    case Tick(elapsed) => elapsed >= 0.0
    case TryAcquire(token, timeout) =>
      timeout > 0.0 && forall i :: 0 <= i < |w.sections| ==> w.sections[i].token != token
    case Leave(i) => i < |w.sections| && w.sections[i].left.None?
    case Release(i) => i < |w.sections| && w.sections[i].left.Some?
  }

  function Apply(w: World, s: Step): World {
    match s
    case Tick(elapsed) => w.(now := w.now + elapsed)
    case TryAcquire(token, timeout) =>
      if Live(w.key, w.now) then w
      else w.(key := SetNx(w.key, w.now, token, timeout),
              sections := w.sections + [Section(token, w.now, w.now + timeout, None)])
    case Leave(i) =>
      if i < |w.sections| then w.(sections := w.sections[i := w.sections[i].(left := Some(w.now))]) else w
    case Release(i) =>
      if i < |w.sections| then w.(key := CompareAndDelete(w.key, w.now, w.sections[i].token)) else w
  }

  ghost predicate RunOf(w: World, steps: seq<Step>)
    decreases |steps|
  {
    steps == [] || (Enabled(w, steps[0]) && RunOf(Apply(w, steps[0]), steps[1..]))
  }

  function After(w: World, steps: seq<Step>): World
    decreases |steps|
  {
    if steps == [] then w else After(Apply(w, steps[0]), steps[1..])
  }

  const EMPTY := World(0.0, None, [])

  // ---------------------------------------------------------------------------------------------
  // The invariant of every interleaving
  // ---------------------------------------------------------------------------------------------

  /** At time `at` the section is over, or its lease has lapsed. */
  predicate Past(s: Section, at: real) {
    s.until <= at || (s.left.Some? && s.left.value <= at)
  }

  ghost predicate Timely(w: World) {
    forall i :: 0 <= i < |w.sections| ==>
      && w.sections[i].start <= w.now && w.sections[i].start < w.sections[i].until
      && (w.sections[i].left.Some? ==> w.sections[i].start <= w.sections[i].left.value <= w.now)
  }

  ghost predicate FreshTokens(w: World) {
    forall i, j :: 0 <= i < j < |w.sections| ==> w.sections[i].token != w.sections[j].token
  }

  /** No section begins before every earlier one is over or lapsed. */
  ghost predicate Ordered(w: World) {
    forall i, j :: 0 <= i < j < |w.sections| ==>
      w.sections[i].start <= w.sections[j].start && Past(w.sections[i], w.sections[j].start)
  }

  /** The key holds the lease of the newest section until that section deletes it. */
  ghost predicate KeyIsNewest(w: World) {
    if w.key.Some? then
      && w.sections != []
      && var s := w.sections[|w.sections| - 1]; w.key.value == Lease(s.token, s.until)
    else
      w.sections != [] ==> w.sections[|w.sections| - 1].left.Some?
  }

  ghost predicate Inv(w: World) {
    Timely(w) && FreshTokens(w) && Ordered(w) && KeyIsNewest(w)
  }

  lemma AcquireKeepsInv(w: World, token: nat, timeout: real)
    requires Inv(w) && Enabled(w, TryAcquire(token, timeout))
    ensures Inv(Apply(w, TryAcquire(token, timeout)))
  {
    if !Live(w.key, w.now) {
      var n := |w.sections|;
      var w' := Apply(w, TryAcquire(token, timeout));
      forall i | 0 <= i < n ensures w.sections[i].start <= w.now && Past(w.sections[i], w.now) {
        if i < n - 1 { assert Past(w.sections[i], w.sections[n - 1].start); }
      }
      assert forall i :: 0 <= i < n ==> w'.sections[i] == w.sections[i];
    }
  }

  lemma LeaveKeepsInv(w: World, i: nat)
    requires Inv(w) && Enabled(w, Leave(i))
    ensures Inv(Apply(w, Leave(i)))
  {
    var w' := Apply(w, Leave(i));
    forall a, b | 0 <= a < b < |w'.sections|
      ensures w'.sections[a].start <= w'.sections[b].start && Past(w'.sections[a], w'.sections[b].start)
    {
      assert Past(w.sections[a], w.sections[b].start);
    }
  }

  lemma {:induction false} RunKeepsInv(w: World, steps: seq<Step>)
    requires Inv(w) && RunOf(w, steps)
    ensures Inv(After(w, steps))
    decreases |steps|
  {
    if steps != [] {
      match steps[0] {
        case TryAcquire(token, timeout) => AcquireKeepsInv(w, token, timeout);
        case Leave(i) => LeaveKeepsInv(w, i);
        case _ =>
      }
      RunKeepsInv(Apply(w, steps[0]), steps[1..]);
    }
  }

  // ---------------------------------------------------------------------------------------------
  // What the lock guarantees
  // ---------------------------------------------------------------------------------------------

  /** Mutual exclusion up to expiry: in every run a section that exits before its own lease expires does not overlap
      any later section, and two overlapping sections mean the earlier one overran its lease. */
  lemma SectionsDisjoint(steps: seq<Step>, i: nat, j: nat)
    requires RunOf(EMPTY, steps)
    requires i < j < |After(EMPTY, steps).sections|
    ensures var w := After(EMPTY, steps);
            var first, second := w.sections[i], w.sections[j];
            && (first.left.Some? && first.left.value <= first.until ==> first.left.value <= second.start)
            && (first.left.None? || second.start < first.left.value ==> first.until <= second.start)
  {
    RunKeepsInv(EMPTY, steps);
    var w := After(EMPTY, steps);
    assert Past(w.sections[i], w.sections[j].start);
  }

  /** A section still inside its lease: it has not exited and the lease has not expired. */
  predicate Inside(s: Section, now: real) {
    s.left.None? && now < s.until
  }

  lemma InsideIsNewest(w: World, i: nat)
    requires Inv(w) && i < |w.sections| && Inside(w.sections[i], w.now)
    ensures i == |w.sections| - 1 && w.key == Some(Lease(w.sections[i].token, w.sections[i].until))
  {
    var n := |w.sections|;
    assert i < n - 1 ==> Past(w.sections[i], w.sections[n - 1].start);
  }

  /** At any moment at most one process is inside its lease, and the key is its lease. */
  lemma OneHolder(steps: seq<Step>, i: nat, j: nat)
    requires RunOf(EMPTY, steps)
    requires i < |After(EMPTY, steps).sections| && j < |After(EMPTY, steps).sections|
    requires Inside(After(EMPTY, steps).sections[i], After(EMPTY, steps).now)
    requires Inside(After(EMPTY, steps).sections[j], After(EMPTY, steps).now)
    ensures i == j
    ensures var w := After(EMPTY, steps); w.key == Some(Lease(w.sections[i].token, w.sections[i].until))
  {
    RunKeepsInv(EMPTY, steps);
    InsideIsNewest(After(EMPTY, steps), i);
    InsideIsNewest(After(EMPTY, steps), j);
  }

  /** A late release is harmless: it never removes a live lease that belongs to another section, and a holder whose own
      lease has lapsed removes nothing that is live. */
  lemma ReleaseTouchesOwnOnly(steps: seq<Step>, i: nat)
    requires RunOf(EMPTY, steps) && Enabled(After(EMPTY, steps), Release(i))
    requires Live(After(EMPTY, steps).key, After(EMPTY, steps).now)
    ensures var w := After(EMPTY, steps);
            var w' := Apply(w, Release(i));
            w'.key != w.key <==> i == |w.sections| - 1
    ensures var w := After(EMPTY, steps);
            w.sections[i].until <= w.now ==> Apply(w, Release(i)).key == w.key
  {
    RunKeepsInv(EMPTY, steps);
    var w := After(EMPTY, steps);
    var n := |w.sections|;
    assert i < n - 1 ==> w.sections[i].token != w.sections[n - 1].token;
  }

  /** The lease is only a lease: a holder that overruns it shares the section with its successor. */
  lemma OverrunOverlaps()
    ensures var steps := [TryAcquire(0, 60.0), Tick(60.0), TryAcquire(1, 60.0)];
            && RunOf(EMPTY, steps)
            && var w := After(EMPTY, steps); |w.sections| == 2 && w.sections[0].left.None? && w.sections[1].left.None?
  {
    var a, b, c := TryAcquire(0, 60.0), Tick(60.0), TryAcquire(1, 60.0);
    var w1 := Apply(EMPTY, a);
    var w2 := Apply(w1, b);
    var w3 := Apply(w2, c);
    assert w1 == World(0.0, Some(Lease(0, 60.0)), [Section(0, 0.0, 60.0, None)]);
    assert w3 == World(60.0, Some(Lease(1, 120.0)), [Section(0, 0.0, 60.0, None), Section(1, 60.0, 120.0, None)]);
    assert [a, b, c][1..] == [b, c] && [b, c][1..] == [c] && [c][1..] == [];
    assert RunOf(w2, [c]) && After(w2, [c]) == w3 by { assert After(w3, []) == w3; }
    assert RunOf(w1, [b, c]) && After(w1, [b, c]) == w3;
  }

  // ---------------------------------------------------------------------------------------------
  // The code
  // ---------------------------------------------------------------------------------------------

  /** What a process finds when it looks: the time, and the key as the other processes have left it. */
  datatype Poll = Poll(now: real, key: Option<Lease>)

  class RedisKey {
    var entry: Option<Lease>

    /** SET NX EX, on a server that drops the key when its expiry has passed. */
    method Set(now: real, token: nat, timeout: real) returns (acquired: bool)
      modifies this
      ensures entry == SetNx(old(entry), now, token, timeout)
      ensures acquired <==> !Live(old(entry), now)
    {
      if entry.Some? && entry.value.until <= now { entry := None; }
      acquired := entry.None?;
      if acquired { entry := Some(Lease(token, now + timeout)); }
    }

    /** The release script; it returns the number of keys deleted. */
    method Eval(now: real, token: nat) returns (deleted: nat)
      modifies this
      ensures entry == if Live(old(entry), now) && old(entry).value.token != token then old(entry) else None
      ensures Live(old(entry), now) ==> entry == CompareAndDelete(old(entry), now, token)
      ensures deleted == 1 <==> Live(old(entry), now) && old(entry).value.token == token
      ensures deleted <= 1
    {
      if entry.Some? && entry.value.until <= now { entry := None; }
      if entry.Some? && entry.value.token == token {
        entry := None;
        deleted := 1;
      } else {
        deleted := 0;
      }
    }

    /** The polling loop. `polls` is what each look would find; the last one falls on or after the deadline. */
    method Acquire(polls: seq<Poll>, deadline: real, token: nat, timeout: real) returns (acquired: bool, k: nat)
      requires polls != [] && polls[|polls| - 1].now >= deadline
      modifies this
      ensures k < |polls| && forall i :: 0 <= i < k ==> polls[i].now < deadline && Live(polls[i].key, polls[i].now)
      ensures acquired <==> polls[k].now < deadline && !Live(polls[k].key, polls[k].now)
      ensures acquired ==> entry == Some(Lease(token, polls[k].now + timeout))
      ensures !acquired ==> polls[k].now >= deadline && (k > 0 ==> entry == polls[k - 1].key)
    {
      k, acquired := 0, false;
      while polls[k].now < deadline
        invariant k < |polls| && !acquired
        invariant forall i :: 0 <= i < k ==> polls[i].now < deadline && Live(polls[i].key, polls[i].now)
        invariant k > 0 ==> entry == polls[k - 1].key
        decreases |polls| - k
      {
        entry := polls[k].key;
        acquired := Set(polls[k].now, token, timeout);
        if acquired {
          break;
        }
        k := k + 1;
      }
    }
  }
}
