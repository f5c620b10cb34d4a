/** What a failover request does, told by the turns of the providers: which attempts each makes and when it gives up. The
    laws here look at attempts and faults only, and leave no choice to the request. */
module FailoverTurns {
  import opened Prelude
  import opened Failover

  // ---------------------------------------------------------------------------------------------
  // One turn
  // ---------------------------------------------------------------------------------------------

  /** The provider is not called at all. */
  predicate Refused(e: Entry) {
    e.circuit == Open || (e.circuit == HalfOpen && !e.canaryFree) || !e.registered
  }

  /** A failure that may pass: the status of an overloaded or broken server, or, unless the status says that the request was
      at fault, a text that speaks of the network. */
  predicate MayPass(f: Fault) {
    || f.status in {Some(429), Some(500), Some(502), Some(503), Some(504)}
    || (f.network && f.status !in {Some(400), Some(401), Some(403)})
  }

  /** The attempt failed before anything went out, and may pass. */
  predicate Transient(t: Attempt) {
    t.chunks == [] && t.fault.Some? && MayPass(t.fault.value)
  }

  lemma RepeatsIff(t: Attempt)
    ensures Repeats(t) <==> Transient(t)
  {
  }

  /** A provider's turn: the attempts made are the first of its script; each that another follows was transient; and the
      turn ends early only with an attempt that was not. */
  ghost predicate IsTurn(e: Entry, maxRetries: nat, turn: seq<Attempt>) {
    && turn <= e.attempts && |turn| <= maxRetries + 1
    && (turn == [] <==> Refused(e))
    && (forall k :: 0 <= k < |turn| - 1 ==> Transient(turn[k]))
    && (0 < |turn| <= maxRetries ==> !Transient(turn[|turn| - 1]))
  }

  lemma TurnUnique(e: Entry, maxRetries: nat, a: seq<Attempt>, b: seq<Attempt>)
    requires IsTurn(e, maxRetries, a) && IsTurn(e, maxRetries, b)
    ensures a == b
  {
    assert forall k :: 0 <= k < |a| && k < |b| ==> a[k] == e.attempts[k] == b[k];
  }

  /** The attempts of a visit are the provider's turn. */
  lemma VisitIsTurn(e: Entry, maxRetries: nat, initial: real)
    requires |e.attempts| == maxRetries + 1
    ensures IsTurn(e, maxRetries, Visit(e, initial).trials)
  {
    if Skipped(e).None? {
      var l := Last(e.attempts, 0);
      forall k | 0 <= k <= l ensures Repeats(e.attempts[k]) <==> Transient(e.attempts[k]) { RepeatsIff(e.attempts[k]); }
      assert forall k :: 0 <= k < l ==> Repeats(e.attempts[k]);
    }
  }

  /** The turn left nothing with the consumer, and the next provider is asked. */
  predicate Passes(turn: seq<Attempt>) {
    turn == [] || (turn[|turn| - 1].fault.Some? && turn[|turn| - 1].chunks == [])
  }

  /** Why the next provider is asked. */
  function Reason(e: Entry, turn: seq<Attempt>): Error
    requires Passes(turn) && (turn == [] ==> Refused(e))
  {
    if turn != [] then Failed(e.name, turn[|turn| - 1].fault.value)
    else if e.circuit == Open then CircuitOpen(e.name)
    else if e.circuit == HalfOpen && !e.canaryFree then CanaryActive(e.name)
    else NotRegistered(e.name)
  }

  /** What a turn leaves behind: one metric record per attempt, one breaker record if there was any, an error if the next
      provider is asked, and a sleep before every attempt but the first, the first of `initial` and each twice the one
      before. */
  ghost function TurnLeaves(e: Entry, turn: seq<Attempt>, initial: real): Footprint
    requires turn == [] ==> Refused(e)
  {
    Footprint(turn,
              if turn == [] then [] else [Note(e.name, turn[|turn| - 1].fault.None?)],
              seq(|turn|, k requires 0 <= k < |turn| => Note(e.name, turn[k].fault.None?)),
              if Passes(turn) then [Reason(e, turn)] else [],
              if turn == [] then 0.0 else initial * ((Pow2(|turn| - 1) - 1) as real))
  }

  lemma MetricsOfTurn(e: Entry, l: nat)
    requires l < |e.attempts| && forall k :: 0 <= k < l ==> Repeats(e.attempts[k])
    ensures seq(l + 1, k requires 0 <= k < l + 1 => Note(e.name, e.attempts[..l + 1][k].fault.None?))
            == Failures(e.name, l) + [Note(e.name, e.attempts[l].fault.None?)]
  {
  }

  lemma VisitLeaves(e: Entry, maxRetries: nat, initial: real)
    requires |e.attempts| == maxRetries + 1
    ensures var turn := Visit(e, initial).trials;
            && (turn == [] ==> Refused(e)) && Visit(e, initial) == TurnLeaves(e, turn, initial)
            && (Passes(turn) <==> !Stops(e))
  {
    if Skipped(e).None? {
      var l := Last(e.attempts, 0);
      var turn := e.attempts[..l + 1];
      assert turn[|turn| - 1] == Final(e);
      BackoffSum(initial, l);
      MetricsOfTurn(e, l);
    }
  }

  // ---------------------------------------------------------------------------------------------
  // The whole request
  // ---------------------------------------------------------------------------------------------

  /** The turns of a request: the providers in priority order, each asked only because the one before passed, until one
      does not. */
  ghost predicate IsRequest(es: seq<Entry>, maxRetries: nat, turns: seq<seq<Attempt>>) {
    && |turns| <= |es|
    && (forall i :: 0 <= i < |turns| ==> IsTurn(es[i], maxRetries, turns[i]))
    && (forall i :: 0 <= i < |turns| - 1 ==> Passes(turns[i]))
    && (|turns| < |es| ==> turns != [] && !Passes(turns[|turns| - 1]))
  }

  /** There is exactly one such list of turns. */
  lemma RequestUnique(es: seq<Entry>, maxRetries: nat, a: seq<seq<Attempt>>, b: seq<seq<Attempt>>)
    requires IsRequest(es, maxRetries, a) && IsRequest(es, maxRetries, b)
    ensures a == b
  {
    forall i | 0 <= i < |a| && i < |b| ensures a[i] == b[i] {
      TurnUnique(es[i], maxRetries, a[i], b[i]);
    }
  }

  ghost function RequestLeaves(es: seq<Entry>, turns: seq<seq<Attempt>>, initial: real): Footprint
    requires |turns| <= |es| && forall i :: 0 <= i < |turns| && turns[i] == [] ==> Refused(es[i])
  {
    if turns == [] then Footprint([], [], [], [], 0.0)
    else Join(TurnLeaves(es[0], turns[0], initial), RequestLeaves(es[1..], turns[1..], initial))
  }

  /** How the request ends: with the last attempt of the last turn, unless that passed too. */
  ghost function RequestEnds(es: seq<Entry>, turns: seq<seq<Attempt>>, errors: seq<Error>): Outcome
    requires |turns| <= |es|
  {
    if es == [] then NoProviders
    else if turns == [] || Passes(turns[|turns| - 1]) then AllFailed(errors)
    else
      var e, turn := es[|turns| - 1], turns[|turns| - 1];
      var last := turn[|turn| - 1];
      if last.fault.None? then Finished(e.name) else Interrupted(e.name, |last.chunks|)
  }

  lemma JoinEmpty(f: Footprint)
    ensures Join(f, Footprint([], [], [], [], 0.0)) == f
  {
    assert f.trials + [] == f.trials && f.breaker + [] == f.breaker;
    assert f.metrics + [] == f.metrics && f.errors + [] == f.errors;
  }

  /** Every request is told by its turns: everything it leaves behind, and how it ends. */
  lemma {:induction false} RequestTurns(es: seq<Entry>, maxRetries: nat, initial: real) returns (turns: seq<seq<Attempt>>)
    requires Scripted(es, maxRetries)
    ensures IsRequest(es, maxRetries, turns)
    ensures Leaves(es, maxRetries, initial) == RequestLeaves(es, turns, initial)
    ensures es != [] ==> turns != []
    decreases |es|
  {
    if es == [] {
      turns := [];
    } else {
      var turn := Visit(es[0], initial).trials;
      VisitIsTurn(es[0], maxRetries, initial);
      VisitLeaves(es[0], maxRetries, initial);
      if Stops(es[0]) {
        turns := [turn];
        JoinEmpty(Visit(es[0], initial));
        assert turns[1..] == [];
      } else {
        var rest := RequestTurns(es[1..], maxRetries, initial);
        turns := [turn] + rest;
        assert turns[1..] == rest;
        RequestGrows(es, maxRetries, turn, rest);
      }
    }
  }

  lemma RequestGrows(es: seq<Entry>, maxRetries: nat, turn: seq<Attempt>, rest: seq<seq<Attempt>>)
    requires es != [] && IsTurn(es[0], maxRetries, turn) && Passes(turn) && IsRequest(es[1..], maxRetries, rest)
    ensures IsRequest(es, maxRetries, [turn] + rest)
  {
    var turns := [turn] + rest;
    forall i | 0 <= i < |turns| ensures IsTurn(es[i], maxRetries, turns[i]) {
      if i > 0 { assert es[1..][i - 1] == es[i]; }
    }
    assert turns[|turns| - 1] == if rest == [] then turn else rest[|rest| - 1];
  }

  /** The outcome is read off the turns, whichever way they were found. */
  lemma {:induction false} OutcomeOfTurns(es: seq<Entry>, maxRetries: nat, initial: real, turns: seq<seq<Attempt>>)
    requires Scripted(es, maxRetries) && IsRequest(es, maxRetries, turns)
    ensures Verdict(es, maxRetries, initial) == RequestEnds(es, turns, Leaves(es, maxRetries, initial).errors)
    decreases |es|
  {
    if es != [] {
      VisitIsTurn(es[0], maxRetries, initial);
      VisitLeaves(es[0], maxRetries, initial);
      if turns != [] { TurnUnique(es[0], maxRetries, turns[0], Visit(es[0], initial).trials); }
      if Stops(es[0]) {
        assert |turns| == 1;
      } else {
        RequestRest(es, maxRetries, turns);
        OutcomeOfTurns(es[1..], maxRetries, initial, turns[1..]);
        OutcomeLater(es, maxRetries, initial, turns);
      }
    }
  }

  lemma RequestRest(es: seq<Entry>, maxRetries: nat, turns: seq<seq<Attempt>>)
    requires es != [] && turns != [] && IsRequest(es, maxRetries, turns) && Passes(turns[0])
    ensures IsRequest(es[1..], maxRetries, turns[1..])
  {
    var rest := turns[1..];
    forall i | 0 <= i < |rest| ensures IsTurn(es[1..][i], maxRetries, rest[i]) { assert rest[i] == turns[i + 1]; }
    if rest != [] { assert rest[|rest| - 1] == turns[|turns| - 1]; }
  }

  /** A provider that passes changes the outcome only where it is an error among others. */
  function Later(v: Outcome, errors: seq<Error>): Outcome {
    if v.NoProviders? || v.AllFailed? then AllFailed(errors) else v
  }

  lemma VerdictLater(es: seq<Entry>, maxRetries: nat, initial: real, errors: seq<Error>)
    requires Scripted(es, maxRetries) && es != [] && !Stops(es[0]) && errors == Leaves(es, maxRetries, initial).errors
    ensures Verdict(es, maxRetries, initial) == Later(Verdict(es[1..], maxRetries, initial), errors)
  {
    var c := Chosen(es[1..], maxRetries);
    assert c < |es[1..]| ==> es[1..][c] == es[c + 1];
  }

  lemma EndsLater(es: seq<Entry>, maxRetries: nat, turns: seq<seq<Attempt>>, errors: seq<Error>, rest: seq<Error>)
    requires es != [] && turns != [] && |turns| <= |es| && Passes(turns[0])
    requires es[1..] == [] || turns[1..] != []
    ensures RequestEnds(es, turns, errors) == Later(RequestEnds(es[1..], turns[1..], rest), errors)
  {
    if |turns| > 1 {
      assert turns[1..][|turns| - 2] == turns[|turns| - 1];
      assert es[1..][|turns| - 2] == es[|turns| - 1];
    }
  }

  lemma OutcomeLater(es: seq<Entry>, maxRetries: nat, initial: real, turns: seq<seq<Attempt>>)
    requires Scripted(es, maxRetries) && es != [] && !Stops(es[0]) && turns != [] && IsRequest(es, maxRetries, turns)
    requires Passes(turns[0])
    requires Verdict(es[1..], maxRetries, initial)
             == RequestEnds(es[1..], turns[1..], Leaves(es[1..], maxRetries, initial).errors)
    ensures Verdict(es, maxRetries, initial) == RequestEnds(es, turns, Leaves(es, maxRetries, initial).errors)
  {
    VerdictLater(es, maxRetries, initial, Leaves(es, maxRetries, initial).errors);
    EndsLater(es, maxRetries, turns, Leaves(es, maxRetries, initial).errors,
              Leaves(es[1..], maxRetries, initial).errors);
  }
}
