/** The provider manager: a priority list, a retry loop per provider, a stream loop per attempt, guarded by a circuit
    breaker and an exclusive canary lease. Providers are arbitrary scripts of what each attempt yields and raises. */
module Failover {
  import opened Prelude

  /** An exception: the status it carries, if it is one of the providers' own, and whether its text speaks of a timeout, a
      reset connection, the network or a 429, 502 or 504. */
  datatype Fault = Fault(message: string, status: Option<int>, network: bool)

  /** One call to a provider: the chunks it yields, then whether it raises. */
  datatype Attempt = Attempt(chunks: seq<string>, fault: Option<Fault>)

  datatype Circuit = Closed | Open | HalfOpen

  /** One entry of the priority list and what happens if the request gets to it. */
  datatype Entry = Entry(name: string, circuit: Circuit, canaryFree: bool, registered: bool, attempts: seq<Attempt>)

  datatype Error =
    | CircuitOpen(provider: string)
    | CanaryActive(provider: string)
    | NotRegistered(provider: string)
    | Failed(provider: string, fault: Fault)

  datatype Outcome =
    | NoProviders
    | Finished(provider: string)
    | Interrupted(provider: string, chunksYielded: nat)
    | AllFailed(errors: seq<Error>)

  /** A success or failure booked against a provider. */
  datatype Note = Note(provider: string, ok: bool)

  // ---------------------------------------------------------------------------------------------
  // What a request does, told by the scripts
  // ---------------------------------------------------------------------------------------------

  function Skipped(e: Entry): Option<Error> {
    if e.circuit == Open then Some(CircuitOpen(e.name))
    else if e.circuit == HalfOpen && !e.canaryFree then Some(CanaryActive(e.name))
    else if !e.registered then Some(NotRegistered(e.name))
    else None
  }

  /** `_is_retryable`: the status decides if it is a telling one, the text otherwise. */
  predicate Retryable(f: Fault) {
    if f.status.Some? && f.status.value in {429, 500, 502, 503, 504} then true
    else if f.status.Some? && f.status.value in {400, 401, 403} then false
    else f.network
  }

  /** An attempt after which the provider is tried again, if retries are left. */
  predicate Repeats(t: Attempt) {
    t.chunks == [] && t.fault.Some? && Retryable(t.fault.value)
  }

  /** The scripts cover every attempt the retry loop may make. */
  ghost predicate Scripted(es: seq<Entry>, maxRetries: nat) {
    forall i :: 0 <= i < |es| ==> |es[i].attempts| == maxRetries + 1
  }

  /** The attempt the retry loop ends with. */
  ghost function Last(attempts: seq<Attempt>, a: nat): (l: nat)
    requires a < |attempts|
    ensures a <= l < |attempts|
    ensures forall k :: a <= k < l ==> Repeats(attempts[k])
    ensures l < |attempts| - 1 ==> !Repeats(attempts[l])
    decreases |attempts| - a
  {
    if a < |attempts| - 1 && Repeats(attempts[a]) then Last(attempts, a + 1) else a
  }

  /** The provider's final attempt. */
  ghost function Final(e: Entry): Attempt
    requires e.attempts != []
  {
    e.attempts[Last(e.attempts, 0)]
  }

  /** The request ends at this entry: with a completed attempt, or because chunks were already out. */
  ghost predicate Stops(e: Entry)
    requires e.attempts != []
  {
    Skipped(e).None? && (Final(e).fault.None? || Final(e).chunks != [])
  }

  function Pow2(n: nat): nat {
    if n == 0 then 1 else 2 * Pow2(n - 1)
  }

  /** The sleeps before attempts `1 .. a`. */
  ghost function Delays(initial: real, a: nat): real {
    if a == 0 then 0.0 else Delays(initial, a - 1) + initial * (Pow2(a - 1) as real)
  }

  ghost function Failures(name: string, n: nat): seq<Note> {
    seq(n, i => Note(name, false))
  }

  /** Everything a request leaves behind: attempts made, breaker records, metric records, errors, time slept. */
  datatype Footprint = Footprint(trials: seq<Attempt>, breaker: seq<Note>, metrics: seq<Note>, errors: seq<Error>,
                                 slept: real)

  ghost function Join(a: Footprint, b: Footprint): Footprint {
    Footprint(a.trials + b.trials, a.breaker + b.breaker, a.metrics + b.metrics, a.errors + b.errors, a.slept + b.slept)
  }

  ghost function Visit(e: Entry, initial: real): Footprint
    requires e.attempts != []
  {
    if Skipped(e).Some? then Footprint([], [], [], [Skipped(e).value], 0.0)
    else
      var l := Last(e.attempts, 0);
      var ok := Note(e.name, Final(e).fault.None?);
      Footprint(e.attempts[..l + 1], [ok], Failures(e.name, l) + [ok],
                if Stops(e) then [] else [Failed(e.name, Final(e).fault.value)], Delays(initial, l))
  }

  ghost function Leaves(es: seq<Entry>, maxRetries: nat, initial: real): Footprint
    requires Scripted(es, maxRetries)
  {
    if es == [] then Footprint([], [], [], [], 0.0)
    else if Stops(es[0]) then Visit(es[0], initial)
    else Join(Visit(es[0], initial), Leaves(es[1..], maxRetries, initial))
  }

  /** The position of the entry the request ends at, or the length of the list. */
  ghost function Chosen(es: seq<Entry>, maxRetries: nat): (c: nat)
    requires Scripted(es, maxRetries)
    ensures c <= |es|
    ensures forall i :: 0 <= i < c ==> !Stops(es[i])
    ensures c < |es| ==> Stops(es[c])
  {
    if es == [] || Stops(es[0]) then 0 else 1 + Chosen(es[1..], maxRetries)
  }

  /** What the consumer of the stream has received: all chunks of all attempts, in order. */
  ghost function Received(trials: seq<Attempt>): seq<string> {
    if trials == [] then [] else Received(trials[..|trials| - 1]) + trials[|trials| - 1].chunks
  }

  ghost function Verdict(es: seq<Entry>, maxRetries: nat, initial: real): Outcome
    requires Scripted(es, maxRetries)
  {
    var c := Chosen(es, maxRetries);
    if es == [] then NoProviders
    else if c == |es| then AllFailed(Leaves(es, maxRetries, initial).errors)
    else if Final(es[c]).fault.None? then Finished(es[c].name)
    else Interrupted(es[c].name, |Final(es[c]).chunks|)
  }

  // ---------------------------------------------------------------------------------------------
  // Properties of every request
  // ---------------------------------------------------------------------------------------------

  lemma {:induction false} ReceivedJoin(a: seq<Attempt>, b: seq<Attempt>)
    ensures Received(a + b) == Received(a) + Received(b)
    decreases |b|
  {
    if b == [] {
      assert a + b == a;
    } else {
      var init, last := b[..|b| - 1], b[|b| - 1];
      ReceivedJoin(a, init);
      assert (a + b)[..|a + b| - 1] == a + init;
    }
  }

  lemma ReceivedStep(attempts: seq<Attempt>, a: nat)
    requires a < |attempts|
    ensures attempts[..a + 1] == attempts[..a] + [attempts[a]]
    ensures Received(attempts[..a + 1]) == Received(attempts[..a]) + attempts[a].chunks
  {
    assert attempts[..a + 1][..a] == attempts[..a];
  }

  ghost predicate Silent(trials: seq<Attempt>) {
    forall k :: 0 <= k < |trials| ==> trials[k].chunks == []
  }

  ghost predicate SilentButLast(trials: seq<Attempt>) {
    forall k :: 0 <= k < |trials| - 1 ==> trials[k].chunks == []
  }

  lemma {:induction false} SilentTrials(trials: seq<Attempt>)
    requires Silent(trials)
    ensures Received(trials) == []
  {
    if trials != [] { SilentTrials(trials[..|trials| - 1]); }
  }

  lemma SilentThen(v: seq<Attempt>, r: seq<Attempt>)
    requires Silent(v) && SilentButLast(r)
    ensures SilentButLast(v + r) && (Silent(r) ==> Silent(v + r))
  {
  }

  /** A provider the request moves on from has yielded nothing. */
  lemma SilentVisit(e: Entry, initial: real)
    requires e.attempts != [] && !Stops(e)
    ensures Silent(Visit(e, initial).trials)
  {
    if Skipped(e).None? {
      var l := Last(e.attempts, 0);
      var t := e.attempts[..l + 1];
      assert forall k :: 0 <= k < |t| ==> t[k].chunks == [];
    }
  }

  /** A provider the request ends at has yielded something in its final attempt only. */
  lemma LastSpeaks(e: Entry, initial: real)
    requires e.attempts != [] && Stops(e)
    ensures var t := Visit(e, initial).trials; SilentButLast(t) && t != [] && t[|t| - 1] == Final(e)
  {
  }

  /** Every attempt but the last one made yields nothing. */
  lemma {:induction false} OnlyLastSpeaks(es: seq<Entry>, maxRetries: nat, initial: real)
    requires Scripted(es, maxRetries)
    ensures var t := Leaves(es, maxRetries, initial).trials;
            && SilentButLast(t)
            && (Chosen(es, maxRetries) == |es| ==> Silent(t))
            && (Chosen(es, maxRetries) < |es| ==> t != [] && t[|t| - 1] == Final(es[Chosen(es, maxRetries)]))
  {
    if es == [] {
    } else if Stops(es[0]) {
      LastSpeaks(es[0], initial);
    } else {
      SilentVisit(es[0], initial);
      OnlyLastSpeaks(es[1..], maxRetries, initial);
      SilentThen(Visit(es[0], initial).trials, Leaves(es[1..], maxRetries, initial).trials);
    }
  }

  lemma ReceivedIsFinal(es: seq<Entry>, maxRetries: nat, initial: real)
    requires Scripted(es, maxRetries)
    ensures Received(Leaves(es, maxRetries, initial).trials)
            == if Chosen(es, maxRetries) < |es| then Final(es[Chosen(es, maxRetries)]).chunks else []
  {
    OnlyLastSpeaks(es, maxRetries, initial);
    var t := Leaves(es, maxRetries, initial).trials;
    if t != [] { SilentTrials(t[..|t| - 1]); }
  }

  /** No stitching: what the consumer receives over the whole request, whatever was retried or failed over, is exactly
      what one attempt of one provider yielded; all of it when the stream finishes, nothing when every provider failed. */
  lemma NoStitching(es: seq<Entry>, maxRetries: nat, initial: real)
    requires Scripted(es, maxRetries)
    ensures var got := Received(Leaves(es, maxRetries, initial).trials);
            match Verdict(es, maxRetries, initial)
            case NoProviders => got == []
            case AllFailed(_) => got == []
            case Finished(p) =>
              exists i, a :: 0 <= i < |es| && 0 <= a <= maxRetries && es[i].name == p
                             && es[i].attempts[a].chunks == got && es[i].attempts[a].fault.None?
            case Interrupted(p, n) =>
              n > 0 && n == |got|
              && exists i, a :: 0 <= i < |es| && 0 <= a <= maxRetries && es[i].name == p
                                && es[i].attempts[a].chunks == got && es[i].attempts[a].fault.Some?
  {
    ReceivedIsFinal(es, maxRetries, initial);
    var c := Chosen(es, maxRetries);
    if c < |es| {
      assert es[c].attempts[Last(es[c].attempts, 0)] == Final(es[c]);
    }
  }

  /** The entries at which a provider was really called. */
  ghost function Called(es: seq<Entry>): seq<Entry> {
    if es == [] then [] else (if Skipped(es[0]).None? then [es[0]] else []) + Called(es[1..])
  }

  /** The entries the request looked at. */
  ghost function Reached(es: seq<Entry>, maxRetries: nat): seq<Entry>
    requires Scripted(es, maxRetries)
  {
    var c := Chosen(es, maxRetries);
    if c < |es| then es[..c + 1] else es
  }

  lemma ReachedStep(es: seq<Entry>, maxRetries: nat)
    requires Scripted(es, maxRetries) && es != []
    ensures Reached(es, maxRetries)[0] == es[0]
    ensures Reached(es, maxRetries)[1..] == if Stops(es[0]) then [] else Reached(es[1..], maxRetries)
  {
  }

  /** The breaker gets one record per provider called, in order, however many retries it took, and none for a skipped
      one. */
  lemma {:induction false} OneRecordEach(es: seq<Entry>, maxRetries: nat, initial: real)
    requires Scripted(es, maxRetries)
    ensures var notes := Leaves(es, maxRetries, initial).breaker;
            var called := Called(Reached(es, maxRetries));
            && |notes| == |called|
            && forall j :: 0 <= j < |notes| ==> notes[j].provider == called[j].name
  {
    if es != [] {
      ReachedStep(es, maxRetries);
      if !Stops(es[0]) { OneRecordEach(es[1..], maxRetries, initial); }
    }
  }

  /** Only the last of these records is a success, and only if `finished`. */
  ghost predicate SuccessLast(notes: seq<Note>, finished: bool) {
    && (finished ==> notes != [])
    && forall j :: 0 <= j < |notes| ==> (notes[j].ok <==> j == |notes| - 1 && finished)
  }

  lemma SuccessStaysLast(failed: seq<Note>, notes: seq<Note>, finished: bool)
    requires SuccessLast(notes, finished) && forall j :: 0 <= j < |failed| ==> !failed[j].ok
    ensures SuccessLast(failed + notes, finished)
  {
  }

  lemma VerdictStep(es: seq<Entry>, maxRetries: nat, initial: real)
    requires Scripted(es, maxRetries) && es != [] && !Stops(es[0])
    ensures Verdict(es, maxRetries, initial).Finished? <==> Verdict(es[1..], maxRetries, initial).Finished?
  {
  }

  /** Only the last record can be a success, and it is one exactly when the request finishes. */
  lemma {:induction false} OnlyLastSucceeds(es: seq<Entry>, maxRetries: nat, initial: real)
    requires Scripted(es, maxRetries)
    ensures SuccessLast(Leaves(es, maxRetries, initial).breaker, Verdict(es, maxRetries, initial).Finished?)
  {
    if es != [] && !Stops(es[0]) {
      OnlyLastSucceeds(es[1..], maxRetries, initial);
      VerdictStep(es, maxRetries, initial);
      SuccessStaysLast(Visit(es[0], initial).breaker, Leaves(es[1..], maxRetries, initial).breaker,
                       Verdict(es, maxRetries, initial).Finished?);
    }
  }

  /** One error per entry passed over, in priority order; all of them when everything failed. */
  lemma {:induction false} ErrorsInOrder(es: seq<Entry>, maxRetries: nat, initial: real)
    requires Scripted(es, maxRetries)
    ensures var errors := Leaves(es, maxRetries, initial).errors;
            && |errors| == Chosen(es, maxRetries)
            && (forall i :: 0 <= i < |errors| ==> errors[i].provider == es[i].name)
            && (forall i :: 0 <= i < |errors| ==> (errors[i].Failed? <==> Skipped(es[i]).None?))
  {
    if es != [] && !Stops(es[0]) { ErrorsInOrder(es[1..], maxRetries, initial); }
  }

  lemma OneMore(n: nat, m: nat)
    requires n > 0
    ensures n * m == m + (n - 1) * m
  {
  }

  lemma VisitBound(e: Entry, maxRetries: nat, initial: real)
    requires |e.attempts| == maxRetries + 1
    ensures |Visit(e, initial).trials| <= maxRetries + 1
    ensures |Visit(e, initial).metrics| == |Visit(e, initial).trials|
  {
  }

  lemma {:induction false} CallBound(es: seq<Entry>, maxRetries: nat, initial: real)
    requires Scripted(es, maxRetries)
    ensures |Leaves(es, maxRetries, initial).trials| <= |es| * (maxRetries + 1)
    ensures |Leaves(es, maxRetries, initial).metrics| == |Leaves(es, maxRetries, initial).trials|
  {
    if es != [] {
      OneMore(|es|, maxRetries + 1);
      VisitBound(es[0], maxRetries, initial);
      if !Stops(es[0]) { CallBound(es[1..], maxRetries, initial); }
    }
  }

  /** Exponential backoff: a provider that ends at attempt `a` cost `initial * (2^a - 1)` of sleep. */
  lemma {:induction false} BackoffSum(initial: real, a: nat)
    ensures Delays(initial, a) == initial * ((Pow2(a) - 1) as real)
  {
    if a > 0 {
      BackoffSum(initial, a - 1);
      var p := Pow2(a - 1) as real;
      assert (Pow2(a) - 1) as real == 2.0 * p - 1.0;
      assert initial * (2.0 * p - 1.0) == initial * (p - 1.0) + initial * p;
    }
  }

  // ---------------------------------------------------------------------------------------------
  // Health metrics
  // ---------------------------------------------------------------------------------------------

  datatype Health = Health(total: nat, successful: nat, failed: nat, consecutiveFailures: nat)

  ghost function OutcomesOf(history: seq<Note>, p: string): seq<bool> {
    if history == [] then []
    else
      var n := history[|history| - 1];
      OutcomesOf(history[..|history| - 1], p) + if n.provider == p then [n.ok] else []
  }

  /** `run` is the length of the failure run the outcomes end with. */
  ghost predicate TrailingFailures(outcomes: seq<bool>, run: nat) {
    && run <= |outcomes|
    && (forall k :: |outcomes| - run <= k < |outcomes| ==> !outcomes[k])
    && (run < |outcomes| ==> outcomes[|outcomes| - 1 - run])
  }

  ghost predicate Tallies(h: Health, outcomes: seq<bool>) {
    && h.total == |outcomes|
    && h.successful == multiset(outcomes)[true]
    && h.failed == multiset(outcomes)[false]
    && TrailingFailures(outcomes, h.consecutiveFailures)
  }

  function HealthOf(health: map<string, Health>, p: string): Health {
    if p in health then health[p] else Health(0, 0, 0, 0)
  }

  /** In any history, requests are successes plus failures. */
  lemma {:induction false} TotalSplits(outcomes: seq<bool>)
    ensures |outcomes| == multiset(outcomes)[true] + multiset(outcomes)[false]
  {
    if outcomes != [] {
      var init := outcomes[..|outcomes| - 1];
      TotalSplits(init);
      assert outcomes == init + [outcomes[|outcomes| - 1]];
      var b := outcomes[|outcomes| - 1];
      assert multiset(outcomes) == multiset(init) + multiset{b};
      assert multiset{b}[b] == 1 && multiset{b}[!b] == 0;
    }
  }

  function Booked(h: Health, ok: bool): Health {
    if ok then Health(h.total + 1, h.successful + 1, h.failed, 0)
    else Health(h.total + 1, h.successful, h.failed + 1, h.consecutiveFailures + 1)
  }

  lemma BookedTallies(h: Health, outcomes: seq<bool>, ok: bool)
    requires Tallies(h, outcomes)
    ensures Tallies(Booked(h, ok), outcomes + [ok])
  {
    assert multiset(outcomes + [ok]) == multiset(outcomes) + multiset{ok};
  }

  ghost predicate TalliesFor(health: map<string, Health>, history: seq<Note>, p: string) {
    Tallies(HealthOf(health, p), OutcomesOf(history, p))
  }

  /** Every provider's health entry agrees with the whole history of metric records. */
  ghost predicate Tallied(health: map<string, Health>, history: seq<Note>) {
    forall p: string :: TalliesFor(health, history, p)
  }

  lemma OutcomesSnoc(history: seq<Note>, n: Note, q: string)
    ensures OutcomesOf(history + [n], q)
            == if n.provider == q then OutcomesOf(history, q) + [n.ok] else OutcomesOf(history, q)
  {
    assert (history + [n])[..|history|] == history;
  }

  lemma BookKeepsTalliesFor(health: map<string, Health>, history: seq<Note>, p: string, ok: bool, q: string)
    requires TalliesFor(health, history, q)
    ensures TalliesFor(health[p := Booked(HealthOf(health, p), ok)], history + [Note(p, ok)], q)
  {
    OutcomesSnoc(history, Note(p, ok), q);
    if q == p { BookedTallies(HealthOf(health, q), OutcomesOf(history, q), ok); }
  }

  lemma BookKeepsTallies(health: map<string, Health>, history: seq<Note>, p: string, ok: bool)
    requires Tallied(health, history)
    ensures Tallied(health[p := Booked(HealthOf(health, p), ok)], history + [Note(p, ok)])
  {
    var after, longer := health[p := Booked(HealthOf(health, p), ok)], history + [Note(p, ok)];
    forall q: string ensures TalliesFor(after, longer, q) {
      assert TalliesFor(health, history, q);
      BookKeepsTalliesFor(health, history, p, ok, q);
    }
  }

  /** The health entries a history of metric records leaves, starting from none. */
  function HealthAfter(history: seq<Note>): map<string, Health> {
    if history == [] then map[]
    else
      var n := history[|history| - 1];
      var sofar := HealthAfter(history[..|history| - 1]);
      sofar[n.provider := Booked(HealthOf(sofar, n.provider), n.ok)]
  }

  lemma {:induction false} HistoryTallies(history: seq<Note>)
    ensures Tallied(HealthAfter(history), history)
  {
    if history == [] {
      forall p: string ensures TalliesFor(map[], [], p) {}
    } else {
      var init, n := history[..|history| - 1], history[|history| - 1];
      HistoryTallies(init);
      BookKeepsTallies(HealthAfter(init), init, n.provider, n.ok);
      assert init + [Note(n.provider, n.ok)] == history;
    }
  }

  /** After any history of records every provider's entry satisfies: total is successes plus failures and the number of
      its records, and the consecutive failures are exactly its failures since its last success. */
  lemma HealthIsHistory(history: seq<Note>, p: string)
    ensures var h := HealthOf(HealthAfter(history), p);
            && h.total == h.successful + h.failed == |OutcomesOf(history, p)|
            && h.failed == multiset(OutcomesOf(history, p))[false]
            && TrailingFailures(OutcomesOf(history, p), h.consecutiveFailures)
  {
    HistoryTallies(history);
    assert TalliesFor(HealthAfter(history), history, p);
    TotalSplits(OutcomesOf(history, p));
  }

  // ---------------------------------------------------------------------------------------------
  // One step along the priority list
  // ---------------------------------------------------------------------------------------------

  /** The counters a request is entered into. */
  datatype Books = Books(trials: seq<Attempt>, slept: real, breaker: seq<Note>, metrics: seq<Note>)

  ghost function Entered(b: Books, f: Footprint): Books {
    Books(b.trials + f.trials, b.slept + f.slept, b.breaker + f.breaker, b.metrics + f.metrics)
  }

  lemma EnteredTwice(b: Books, f: Footprint, g: Footprint)
    ensures Entered(Entered(b, f), g) == Entered(b, Join(f, g))
  {
    assert b.trials + f.trials + g.trials == b.trials + (f.trials + g.trials);
    assert b.breaker + f.breaker + g.breaker == b.breaker + (f.breaker + g.breaker);
    assert b.metrics + f.metrics + g.metrics == b.metrics + (f.metrics + g.metrics);
  }

  /** What the first `a` attempts at a provider leave behind, all of them failed and retried. */
  ghost function Tries(e: Entry, initial: real, a: nat): Footprint
    requires a <= |e.attempts|
  {
    Footprint(e.attempts[..a], [], Failures(e.name, a), [], Delays(initial, a))
  }

  /** The books after attempt `a`. */
  ghost function Tried(b: Books, e: Entry, a: nat): Books
    requires a < |e.attempts|
  {
    Books(b.trials + [e.attempts[a]], b.slept, b.breaker, b.metrics + [Note(e.name, e.attempts[a].fault.None?)])
  }

  lemma OneMoreTry(b: Books, e: Entry, initial: real, a: nat)
    requires a < |e.attempts| && e.attempts[a].fault.Some?
    ensures var x := Tried(Entered(b, Tries(e, initial, a)), e, a);
            x.(slept := x.slept + initial * (Pow2(a) as real)) == Entered(b, Tries(e, initial, a + 1))
    ensures Received(e.attempts[..a + 1]) == Received(e.attempts[..a]) + e.attempts[a].chunks
  {
    ReceivedStep(e.attempts, a);
    assert b.trials + e.attempts[..a] + [e.attempts[a]] == b.trials + e.attempts[..a + 1];
    assert Failures(e.name, a + 1) == Failures(e.name, a) + [Note(e.name, false)];
    assert b.metrics + Failures(e.name, a) + [Note(e.name, false)] == b.metrics + Failures(e.name, a + 1);
  }

  lemma LastTry(b: Books, e: Entry, initial: real, l: nat)
    requires e.attempts != [] && Skipped(e).None? && l == Last(e.attempts, 0)
    ensures var x := Tried(Entered(b, Tries(e, initial, l)), e, l);
            x.(breaker := x.breaker + [Note(e.name, e.attempts[l].fault.None?)]) == Entered(b, Visit(e, initial))
    ensures Received(Visit(e, initial).trials) == Received(e.attempts[..l]) + e.attempts[l].chunks
    ensures Final(e) == e.attempts[l]
  {
    ReceivedStep(e.attempts, l);
    var n := Note(e.name, Final(e).fault.None?);
    assert b.trials + e.attempts[..l] + [e.attempts[l]] == b.trials + e.attempts[..l + 1];
    assert b.metrics + Failures(e.name, l) + [n] == b.metrics + (Failures(e.name, l) + [n]);
  }

  lemma JoinAssoc(a: Footprint, b: Footprint, c: Footprint)
    ensures Join(Join(a, b), c) == Join(a, Join(b, c))
  {
    assert a.trials + b.trials + c.trials == a.trials + (b.trials + c.trials);
    assert a.breaker + b.breaker + c.breaker == a.breaker + (b.breaker + c.breaker);
    assert a.metrics + b.metrics + c.metrics == a.metrics + (b.metrics + c.metrics);
    assert a.errors + b.errors + c.errors == a.errors + (b.errors + c.errors);
  }

  /** The entries before `i`, none of which ended the request. */
  ghost predicate PassedOver(es: seq<Entry>, maxRetries: nat, i: nat)
    requires Scripted(es, maxRetries) && i <= |es|
  {
    forall j :: 0 <= j < i ==> !Stops(es[j])
  }

  /** What those entries left behind. */
  ghost function Done(es: seq<Entry>, maxRetries: nat, initial: real, i: nat): Footprint
    requires Scripted(es, maxRetries) && i <= |es|
  {
    if i == 0 then Footprint([], [], [], [], 0.0)
    else Join(Done(es, maxRetries, initial, i - 1), Visit(es[i - 1], initial))
  }

  lemma {:induction false} Unroll(es: seq<Entry>, maxRetries: nat, initial: real, i: nat)
    requires Scripted(es, maxRetries) && i <= |es| && PassedOver(es, maxRetries, i)
    ensures Scripted(es[i..], maxRetries) && Chosen(es, maxRetries) == i + Chosen(es[i..], maxRetries)
    ensures Leaves(es, maxRetries, initial) == Join(Done(es, maxRetries, initial, i), Leaves(es[i..], maxRetries, initial))
  {
    if i == 0 {
      assert es[0..] == es;
      var l := Leaves(es, maxRetries, initial);
      assert Join(Done(es, maxRetries, initial, 0), l) == l;
    } else {
      Unroll(es, maxRetries, initial, i - 1);
      assert es[i - 1..][0] == es[i - 1] && es[i - 1..][1..] == es[i..];
      JoinAssoc(Done(es, maxRetries, initial, i - 1), Visit(es[i - 1], initial), Leaves(es[i..], maxRetries, initial));
    }
  }

  /** A request has taken the books from `before` to `after`, handed `got` to the caller and ended with `outcome`. */
  ghost predicate Served(es: seq<Entry>, maxRetries: nat, initial: real, before: Books, after: Books,
                         got: seq<string>, outcome: Outcome)
    requires Scripted(es, maxRetries)
  {
    && outcome == Verdict(es, maxRetries, initial)
    && got == Received(Leaves(es, maxRetries, initial).trials)
    && after == Entered(before, Leaves(es, maxRetries, initial))
  }

  /** The request that ends at entry `i`. */
  lemma EndsAt(es: seq<Entry>, maxRetries: nat, initial: real, i: nat, before: Books)
    requires Scripted(es, maxRetries) && i < |es| && PassedOver(es, maxRetries, i) && Stops(es[i])
    ensures var done, end := Done(es, maxRetries, initial, i + 1), Final(es[i]);
            && Received(done.trials) == end.chunks
            && Served(es, maxRetries, initial, before, Entered(before, done), Received(done.trials),
                      if end.fault.None? then Finished(es[i].name) else Interrupted(es[i].name, |end.chunks|))
  {
    DoneIsAll(es, maxRetries, initial, i);
    ReceivedIsFinal(es, maxRetries, initial);
  }

  lemma DoneIsAll(es: seq<Entry>, maxRetries: nat, initial: real, i: nat)
    requires Scripted(es, maxRetries) && i < |es| && PassedOver(es, maxRetries, i) && Stops(es[i])
    ensures Chosen(es, maxRetries) == i && Leaves(es, maxRetries, initial) == Done(es, maxRetries, initial, i + 1)
  {
    Unroll(es, maxRetries, initial, i);
    var rest := es[i..];
    assert rest[0] == es[i];
    assert Chosen(rest, maxRetries) == 0 && Leaves(rest, maxRetries, initial) == Visit(es[i], initial);
  }

  lemma JoinNothing(f: Footprint)
    ensures Join(f, Footprint([], [], [], [], 0.0)) == f
  {
  }

  /** The request that runs out of entries. */
  lemma EndsNowhere(es: seq<Entry>, maxRetries: nat, initial: real, before: Books)
    requires Scripted(es, maxRetries) && es != [] && PassedOver(es, maxRetries, |es|)
    ensures var done := Done(es, maxRetries, initial, |es|);
            && Received(done.trials) == []
            && Served(es, maxRetries, initial, before, Entered(before, done), Received(done.trials), AllFailed(done.errors))
  {
    Unroll(es, maxRetries, initial, |es|);
    ReceivedIsFinal(es, maxRetries, initial);
    JoinNothing(Done(es, maxRetries, initial, |es|));
  }

  /** One more entry passed over. */
  lemma PassOver(es: seq<Entry>, maxRetries: nat, initial: real, i: nat, before: Books, done: Footprint)
    requires Scripted(es, maxRetries) && i < |es| && done == Done(es, maxRetries, initial, i)
    ensures var v := Visit(es[i], initial);
            && Join(done, v) == Done(es, maxRetries, initial, i + 1)
            && Received(Join(done, v).trials) == Received(done.trials) + Received(v.trials)
            && Entered(Entered(before, done), v) == Entered(before, Join(done, v))
  {
    ReceivedJoin(done.trials, Visit(es[i], initial).trials);
    EnteredTwice(before, done, Visit(es[i], initial));
  }

  lemma NothingToServe(maxRetries: nat, initial: real, b: Books)
    ensures Served([], maxRetries, initial, b, b, [], NoProviders)
  {
  }

  /** What `generate` sees of a provider: a whole reply, or an exception and nothing. */
  ghost predicate AllOrNothing(e: Entry) {
    forall k :: 0 <= k < |e.attempts| ==> |e.attempts[k].chunks| == if e.attempts[k].fault.None? then 1 else 0
  }

  ghost predicate AllWhole(es: seq<Entry>) {
    forall i {:trigger AllOrNothing(es[i])} :: 0 <= i < |es| ==> AllOrNothing(es[i])
  }

  function Pieces(reply: Option<string>): seq<string> {
    if reply.Some? then [reply.value] else []
  }

  // ---------------------------------------------------------------------------------------------
  // The manager
  // ---------------------------------------------------------------------------------------------

  class Manager {
    var health: map<string, Health>
    var breaker: seq<Note>
    var held: set<nat>
    var nextToken: nat
    var slept: real
    ghost var trials: seq<Attempt>
    ghost var history: seq<Note>

    ghost predicate Valid()
      reads this
    {
      && (forall t :: t in held ==> t < nextToken)
      && Tallied(health, history)
    }

    ghost function Accounts(): Books
      reads this
    {
      Books(trials, slept, breaker, history)
    }

    constructor ()
      ensures Valid() && held == {} && breaker == [] && history == []
    {
      health, breaker, held, nextToken, slept, trials, history := map[], [], {}, 0, 0.0, [], [];
    }

    /** `_record_metrics`. */
    method RecordMetrics(p: string, ok: bool)
      requires Valid()
      modifies this`health, this`history
      ensures Valid() && history == old(history) + [Note(p, ok)]
      ensures health == old(health)[p := Booked(HealthOf(old(health), p), ok)]
    {
      ghost var was := health;
      BookKeepsTallies(health, history, p, ok);
      if p !in health { health := health[p := Health(0, 0, 0, 0)]; }
      var h := health[p].(total := health[p].total + 1);
      if ok {
        h := h.(successful := h.successful + 1, consecutiveFailures := 0);
      } else {
        h := h.(failed := h.failed + 1, consecutiveFailures := h.consecutiveFailures + 1);
      }
      health := health[p := h];
      history := history + [Note(p, ok)];
      assert health == was[p := Booked(HealthOf(was, p), ok)];
    }

    method ReleaseCanary(token: Option<nat>)
      modifies this`held
      ensures held == if token.Some? then old(held) - {token.value} else old(held)
    {
      if token.Some? { held := held - {token.value}; }
    }

    /** The end of a provider's turn: one breaker record, and the lease given back. */
    method Settle(p: string, ok: bool, token: Option<nat>)
      requires Valid()
      modifies this`breaker, this`held
      ensures Valid() && Accounts() == old(Accounts()).(breaker := old(Accounts()).breaker + [Note(p, ok)])
      ensures held == if token.Some? then old(held) - {token.value} else old(held)
    {
      breaker := breaker + [Note(p, ok)];
      ReleaseCanary(token);
    }

    method Sleep(delay: real)
      requires Valid()
      modifies this`slept
      ensures Valid() && Accounts() == old(Accounts()).(slept := old(Accounts()).slept + delay)
    {
      slept := slept + delay;
    }

    /** Circuit check, canary lease and registry lookup: a skipped provider keeps no lease. */
    method Admit(e: Entry) returns (refusal: Option<Error>, token: Option<nat>)
      requires Valid()
      modifies this`held, this`nextToken
      ensures Valid() && refusal == Skipped(e)
      ensures refusal.Some? ==> held == old(held)
      ensures refusal.None? && token.None? ==> held == old(held)
      ensures refusal.None? && token.Some? ==> token.value !in old(held) && held == old(held) + {token.value}
      ensures refusal.None? ==> (token.Some? <==> e.circuit == HalfOpen)
    {
      token := None;
      if e.circuit == Open {
        return Some(CircuitOpen(e.name)), None;
      }
      if e.circuit == HalfOpen {
        if !e.canaryFree {
          return Some(CanaryActive(e.name)), None;
        }
        token := Some(nextToken);
        held, nextToken := held + {nextToken}, nextToken + 1;
      }
      if !e.registered {
        ReleaseCanary(token);
        return Some(NotRegistered(e.name)), None;
      }
      refusal := None;
    }

    /** The chunk loop: every chunk the provider yields is yielded on, after what the consumer has already. */
    static method Relay(chunks: seq<string>, sofar: seq<string>) returns (sent: seq<string>, chunksYielded: nat)
      ensures sent == sofar + chunks && chunksYielded == |chunks|
    {
      sent, chunksYielded := sofar, 0;
      while chunksYielded < |chunks|
        invariant chunksYielded <= |chunks| && sent == sofar + chunks[..chunksYielded]
      {
        sent := sent + [chunks[chunksYielded]];
        chunksYielded := chunksYielded + 1;
      }
    }

    /** One streaming attempt: its chunks go out as they come, and its end is booked. */
    method TryStream(e: Entry, attempt: nat, sofar: seq<string>)
      returns (sent: seq<string>, chunksYielded: nat, fault: Option<Fault>)
      requires Valid() && attempt < |e.attempts|
      modifies this`trials, this`health, this`history
      ensures Valid() && Accounts() == Tried(old(Accounts()), e, attempt)
      ensures sent == sofar + e.attempts[attempt].chunks && chunksYielded == |e.attempts[attempt].chunks|
      ensures fault == e.attempts[attempt].fault
    {
      trials := trials + [e.attempts[attempt]];
      sent, chunksYielded := Relay(e.attempts[attempt].chunks, sofar);
      fault := e.attempts[attempt].fault;
      RecordMetrics(e.name, fault.None?);
    }

    /** One pass through the retry loop of `stream`: an attempt, then a pause and `again`, or the end of the turn. */
    method StreamOnce(e: Entry, attempt: nat, maxRetries: nat, token: Option<nat>, initial: real, sofar: seq<string>,
                      ghost before: Books)
      returns (sent: seq<string>, chunksYielded: nat, fault: Option<Fault>, again: bool)
      requires Valid() && Skipped(e).None? && attempt < |e.attempts| == maxRetries + 1
      requires Last(e.attempts, attempt) == Last(e.attempts, 0)
      requires Accounts() == Entered(before, Tries(e, initial, attempt))
      modifies this
      ensures Valid() && sent == sofar + e.attempts[attempt].chunks
      ensures again ==> attempt < maxRetries && Last(e.attempts, attempt + 1) == Last(e.attempts, 0)
      ensures again ==> held == old(held) && Accounts() == Entered(before, Tries(e, initial, attempt + 1))
      ensures !again ==> attempt == Last(e.attempts, 0) && Accounts() == Entered(before, Visit(e, initial))
      ensures !again ==> fault == Final(e).fault && chunksYielded == |Final(e).chunks|
      ensures !again ==> held == if token.Some? then old(held) - {token.value} else old(held)
    {
      sent, chunksYielded, fault := TryStream(e, attempt, sofar);
      again := fault.Some? && chunksYielded == 0 && attempt < maxRetries && Retryable(fault.value);
      if again {
        OneMoreTry(before, e, initial, attempt);
        Sleep(initial * (Pow2(attempt) as real));
      } else {
        LastTry(before, e, initial, attempt);
        Settle(e.name, fault.None?, token);
      }
    }

    /** The retry loop of `stream` for one provider. `sent` is all the consumer has received: what was there before, and
        every chunk of every attempt made here. */
    method StreamFrom(e: Entry, maxRetries: nat, token: Option<nat>, initial: real, sofar: seq<string>)
      returns (sent: seq<string>, chunksYielded: nat, fault: Option<Fault>)
      requires Valid() && Skipped(e).None? && |e.attempts| == maxRetries + 1
      modifies this
      ensures Valid()
      ensures held == if token.Some? then old(held) - {token.value} else old(held)
      ensures fault == Final(e).fault && chunksYielded == |Final(e).chunks|
      ensures sent == sofar + Received(Visit(e, initial).trials)
      ensures Accounts() == Entered(old(Accounts()), Visit(e, initial))
    {
      var attempt := 0;
      sent := sofar;
      ghost var before := Accounts();
      while true
        invariant Valid() && held == old(held)
        invariant attempt < |e.attempts| && Last(e.attempts, attempt) == Last(e.attempts, 0)
        invariant sent == sofar + Received(e.attempts[..attempt])
        invariant Accounts() == Entered(before, Tries(e, initial, attempt))
        decreases |e.attempts| - attempt
      {
        ReceivedStep(e.attempts, attempt);
        var again;
        sent, chunksYielded, fault, again := StreamOnce(e, attempt, maxRetries, token, initial, sent, before);
        assert sent == sofar + Received(e.attempts[..attempt + 1]);
        if !again {
          return;
        }
        attempt := attempt + 1;
      }
    }

    /** The loop body of `stream`: admission, then the provider's retry loop. */
    method Serve(e: Entry, maxRetries: nat, initial: real, sofar: seq<string>)
      returns (sent: seq<string>, chunksYielded: nat, error: Option<Error>, stopped: bool)
      requires Valid() && |e.attempts| == maxRetries + 1
      modifies this
      ensures Valid() && held == old(held)
      ensures stopped == Stops(e) && sent == sofar + Received(Visit(e, initial).trials)
      ensures stopped ==> chunksYielded == |Final(e).chunks|
      ensures Accounts() == Entered(old(Accounts()), Visit(e, initial))
      ensures var v := Visit(e, initial);
              && (stopped ==> v.errors == [] && (error.None? <==> Final(e).fault.None?))
              && (!stopped ==> error.Some? && v.errors == [error.value])
    {
      var refusal, token := Admit(e);
      if refusal.Some? {
        return sofar, 0, refusal, false;
      }
      var fault;
      sent, chunksYielded, fault := StreamFrom(e, maxRetries, token, initial, sofar);
      error := if fault.None? then None else Some(Failed(e.name, fault.value));
      stopped := fault.None? || chunksYielded > 0;
    }

    /** The provider loop of `stream`: it stops at entry `c`, or runs out of entries. */
    method StreamInTurn(es: seq<Entry>, maxRetries: nat, initial: real)
      returns (sent: seq<string>, chunksYielded: nat, errors: seq<Error>, finished: bool, c: nat)
      requires Valid() && Scripted(es, maxRetries)
      modifies this
      ensures Valid() && held == old(held) && c <= |es| && PassedOver(es, maxRetries, c)
      ensures if c < |es| then
                && Stops(es[c]) && (finished <==> Final(es[c]).fault.None?) && chunksYielded == |Final(es[c]).chunks|
                && Accounts() == Entered(old(Accounts()), Done(es, maxRetries, initial, c + 1))
                && sent == Received(Done(es, maxRetries, initial, c + 1).trials)
              else
                && errors == Done(es, maxRetries, initial, c).errors
                && Accounts() == Entered(old(Accounts()), Done(es, maxRetries, initial, c))
                && sent == Received(Done(es, maxRetries, initial, c).trials)
    {
      sent, chunksYielded, errors, finished, c := [], 0, [], false, 0;
      ghost var before, done := Accounts(), Done(es, maxRetries, initial, 0);
      while c < |es|
        invariant c <= |es| && Valid() && held == old(held)
        invariant PassedOver(es, maxRetries, c) && done == Done(es, maxRetries, initial, c)
        invariant errors == done.errors && sent == Received(done.trials) && Accounts() == Entered(before, done)
      {
        PassOver(es, maxRetries, initial, c, before, done);
        var error, stopped;
        sent, chunksYielded, error, stopped := Serve(es[c], maxRetries, initial, sent);
        done := Join(done, Visit(es[c], initial));
        assert sent == Received(done.trials) && Accounts() == Entered(before, done);
        if stopped {
          finished := error.None?;
          return;
        }
        errors := errors + [error.value];
        c := c + 1;
      }
    }

    /** `stream` over the whole priority list; `sent` is everything the consumer has received. */
    method Stream(es: seq<Entry>, maxRetries: nat, initial: real) returns (sent: seq<string>, outcome: Outcome)
      requires Valid() && Scripted(es, maxRetries)
      modifies this
      ensures Valid() && held == old(held)
      ensures Served(es, maxRetries, initial, old(Accounts()), Accounts(), sent, outcome)
    {
      if es == [] {
        NothingToServe(maxRetries, initial, Accounts());
        return [], NoProviders;
      }
      var chunksYielded, errors, finished, c;
      sent, chunksYielded, errors, finished, c := StreamInTurn(es, maxRetries, initial);
      if c < |es| {
        EndsAt(es, maxRetries, initial, c, old(Accounts()));
        outcome := if finished then Finished(es[c].name) else Interrupted(es[c].name, chunksYielded);
      } else {
        EndsNowhere(es, maxRetries, initial, old(Accounts()));
        outcome := AllFailed(errors);
      }
    }

    /** One attempt at a whole reply. */
    method TryGenerate(e: Entry, attempt: nat) returns (reply: Option<string>, fault: Option<Fault>)
      requires Valid() && attempt < |e.attempts| && AllOrNothing(e)
      modifies this`trials, this`health, this`history
      ensures Valid() && Accounts() == Tried(old(Accounts()), e, attempt)
      ensures Pieces(reply) == e.attempts[attempt].chunks && fault == e.attempts[attempt].fault
    {
      trials := trials + [e.attempts[attempt]];
      fault := e.attempts[attempt].fault;
      reply := if fault.None? then Some(e.attempts[attempt].chunks[0]) else None;
      RecordMetrics(e.name, fault.None?);
    }

    /** The retry loop of `generate` for one provider: as in `stream`, but a reply is there in full or not at all. */
    method GenerateFrom(e: Entry, maxRetries: nat, token: Option<nat>, initial: real)
      returns (reply: Option<string>, fault: Option<Fault>)
      requires Valid() && Skipped(e).None? && |e.attempts| == maxRetries + 1 && AllOrNothing(e)
      modifies this
      ensures Valid()
      ensures held == if token.Some? then old(held) - {token.value} else old(held)
      ensures fault == Final(e).fault && Pieces(reply) == Final(e).chunks
      ensures Accounts() == Entered(old(Accounts()), Visit(e, initial))
    {
      var attempt := 0;
      while true
        invariant Valid() && held == old(held)
        invariant attempt < |e.attempts| && Last(e.attempts, attempt) == Last(e.attempts, 0)
        invariant Accounts() == Entered(old(Accounts()), Tries(e, initial, attempt))
        decreases |e.attempts| - attempt
      {
        reply, fault := TryGenerate(e, attempt);
        if fault.Some? && attempt < maxRetries && Retryable(fault.value) {
          OneMoreTry(old(Accounts()), e, initial, attempt);
          Sleep(initial * (Pow2(attempt) as real));
          attempt := attempt + 1;
        } else {
          LastTry(old(Accounts()), e, initial, attempt);
          Settle(e.name, fault.None?, token);
          return;
        }
      }
    }

    /** The loop body of `generate`. */
    method Answer(e: Entry, maxRetries: nat, initial: real) returns (reply: Option<string>, error: Option<Error>)
      requires Valid() && |e.attempts| == maxRetries + 1 && AllOrNothing(e)
      modifies this
      ensures Valid() && held == old(held)
      ensures reply.Some? <==> Stops(e)
      ensures reply.Some? ==> Final(e).fault.None? && Pieces(reply) == Final(e).chunks
      ensures Accounts() == Entered(old(Accounts()), Visit(e, initial))
      ensures reply.None? ==> error.Some? && Visit(e, initial).errors == [error.value]
    {
      var refusal, token := Admit(e);
      if refusal.Some? {
        return None, refusal;
      }
      var fault;
      reply, fault := GenerateFrom(e, maxRetries, token, initial);
      error := if fault.None? then None else Some(Failed(e.name, fault.value));
    }

    /** The provider loop of `generate`: it stops at entry `c`, or runs out of entries. */
    method AskInTurn(es: seq<Entry>, maxRetries: nat, initial: real)
      returns (reply: Option<string>, errors: seq<Error>, c: nat)
      requires Valid() && Scripted(es, maxRetries) && AllWhole(es)
      modifies this
      ensures Valid() && held == old(held) && c <= |es| && PassedOver(es, maxRetries, c)
      ensures if c < |es| then
                && Stops(es[c]) && Final(es[c]).fault.None? && reply.Some? && Pieces(reply) == Final(es[c]).chunks
                && Accounts() == Entered(old(Accounts()), Done(es, maxRetries, initial, c + 1))
              else
                && reply.None? && errors == Done(es, maxRetries, initial, c).errors
                && Accounts() == Entered(old(Accounts()), Done(es, maxRetries, initial, c))
    {
      errors, c := [], 0;
      ghost var before, done := Accounts(), Done(es, maxRetries, initial, 0);
      while c < |es|
        invariant c <= |es| && Valid() && held == old(held)
        invariant PassedOver(es, maxRetries, c) && done == Done(es, maxRetries, initial, c)
        invariant errors == done.errors && Accounts() == Entered(before, done)
      {
        PassOver(es, maxRetries, initial, c, before, done);
        assert AllOrNothing(es[c]);
        var error;
        reply, error := Answer(es[c], maxRetries, initial);
        done := Join(done, Visit(es[c], initial));
        if reply.Some? {
          return;
        }
        errors := errors + [error.value];
        c := c + 1;
      }
      reply := None;
    }

    /** `generate` over the whole priority list: the same run as `stream`, on scripts that never break off. */
    method Generate(es: seq<Entry>, maxRetries: nat, initial: real) returns (reply: Option<string>, outcome: Outcome)
      requires Valid() && Scripted(es, maxRetries) && AllWhole(es)
      modifies this
      ensures Valid() && held == old(held)
      ensures Served(es, maxRetries, initial, old(Accounts()), Accounts(), Pieces(reply), outcome)
      ensures !outcome.Interrupted? && (reply.Some? <==> outcome.Finished?)
    {
      if es == [] {
        NothingToServe(maxRetries, initial, Accounts());
        return None, NoProviders;
      }
      var errors, c;
      reply, errors, c := AskInTurn(es, maxRetries, initial);
      if c < |es| {
        EndsAt(es, maxRetries, initial, c, old(Accounts()));
        outcome := Finished(es[c].name);
      } else {
        EndsNowhere(es, maxRetries, initial, old(Accounts()));
        outcome := AllFailed(errors);
      }
    }
  }
}
