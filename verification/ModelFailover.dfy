/** Model-level failover inside one provider, and its composition with the provider-level failover above it. */
module ModelFailover {
  import opened Prelude
  import opened Failover

  /** One request to one model: a status other than 200, or tokens followed by the end or an exception. A failure to
      connect is an exception before any token. */
  datatype ModelCall = Refused(status: int) | Answers(tokens: seq<string>, fault: Option<string>)

  datatype Model = Model(name: string, call: ModelCall)

  datatype ModelError = ModelError(model: string, status: Option<int>)

  datatype Ending =
    | Completed
    | NoModels
    | BrokenOff(model: string)
    | Exhausted(errors: seq<ModelError>, status: Option<int>)

  function TokensOf(c: ModelCall): seq<string> {
    if c.Refused? then [] else c.tokens
  }

  /** The model loop ends here: the stream completed, or it broke off after a token was out. */
  predicate Ends(m: Model) {
    m.call.Answers? && (m.call.fault.None? || m.call.tokens != [])
  }

  function ErrorOf(m: Model): ModelError {
    ModelError(m.name, if m.call.Refused? then Some(m.call.status) else None)
  }

  /** The first model the loop ends at, or the number of models. */
  function Speaker(models: seq<Model>): (c: nat)
    ensures c <= |models|
    ensures forall i :: 0 <= i < c ==> !Ends(models[i])
    ensures c < |models| ==> Ends(models[c])
  {
    if models == [] || Ends(models[0]) then 0 else 1 + Speaker(models[1..])
  }

  lemma {:induction false} SpeakerIs(models: seq<Model>, c: nat)
    requires c <= |models| && (forall i :: 0 <= i < c ==> !Ends(models[i])) && (c < |models| ==> Ends(models[c]))
    ensures Speaker(models) == c
  {
    if c > 0 { SpeakerIs(models[1..], c - 1); }
  }

  /** Everything the models asked so far have put on the wire. */
  ghost function Heard(models: seq<Model>): seq<string> {
    if models == [] then [] else Heard(models[..|models| - 1]) + TokensOf(models[|models| - 1].call)
  }

  ghost function Asked(models: seq<Model>): seq<Model> {
    if Speaker(models) < |models| then models[..Speaker(models) + 1] else models
  }

  lemma {:induction false} SilentModels(models: seq<Model>)
    requires forall i :: 0 <= i < |models| ==> !Ends(models[i])
    ensures Heard(models) == []
  {
    if models != [] { SilentModels(models[..|models| - 1]); }
  }

  lemma HeardLast(models: seq<Model>, c: nat)
    requires c < |models| && (forall i :: 0 <= i < c ==> !Ends(models[i])) && Ends(models[c])
    ensures Heard(models[..c + 1]) == models[c].call.tokens
  {
    assert models[..c + 1][..c] == models[..c];
    SilentModels(models[..c]);
  }

  /** All tokens of all models asked are the tokens of one model: the first that completes or breaks off mid-stream. */
  lemma OneModelHeard(models: seq<Model>)
    ensures Heard(Asked(models)) == if Speaker(models) < |models| then models[Speaker(models)].call.tokens else []
  {
    var c := Speaker(models);
    if c < |models| {
      assert Asked(models) == models[..c + 1];
      HeardLast(models, c);
    } else {
      assert Asked(models) == models;
      SilentModels(models);
    }
  }

  /** One error per model, in the order the models were asked. */
  ghost function ModelErrors(models: seq<Model>, c: nat): (errors: seq<ModelError>)
    requires c <= |models|
    ensures |errors| == c && forall i :: 0 <= i < c ==> errors[i].model == models[i].name
  {
    if c == 0 then [] else ModelErrors(models, c - 1) + [ErrorOf(models[c - 1])]
  }

  /** How `stream` ends; when every model failed the exception carries the status of the last one. */
  ghost function EndingOf(models: seq<Model>): Ending {
    var c := Speaker(models);
    if models == [] then NoModels
    else if c == |models| then Exhausted(ModelErrors(models, c), ErrorOf(models[c - 1]).status)
    else if models[c].call.fault.None? then Completed
    else BrokenOff(models[c].name)
  }

  lemma StreamEndsAt(models: seq<Model>, c: nat)
    requires c < |models| && (forall i :: 0 <= i < c ==> !Ends(models[i])) && Ends(models[c])
    ensures Heard(Asked(models)) == models[c].call.tokens
    ensures EndingOf(models) == if models[c].call.fault.None? then Completed else BrokenOff(models[c].name)
  {
    SpeakerIs(models, c);
    OneModelHeard(models);
  }

  lemma StreamEndsNowhere(models: seq<Model>)
    requires models != [] && forall i :: 0 <= i < |models| ==> !Ends(models[i])
    ensures Heard(Asked(models)) == []
    ensures EndingOf(models) == Exhausted(ModelErrors(models, |models|), ErrorOf(models[|models| - 1]).status)
  {
    SpeakerIs(models, |models|);
    OneModelHeard(models);
  }

  /** The model failed and nothing of it went out. */
  predicate FailsSilently(m: Model) {
    m.call.Refused? || (m.call.fault.Some? && m.call.tokens == [])
  }

  /** The error names the model, with the status it answered if it answered one. */
  predicate SaysWhy(e: ModelError, m: Model) {
    e.model == m.name && (m.call.Refused? ==> e.status == Some(m.call.status)) && (m.call.Answers? ==> e.status == None)
  }

  lemma {:induction false} ErrorsAre(models: seq<Model>, c: nat)
    requires c <= |models|
    ensures forall i :: 0 <= i < c ==> SaysWhy(ModelErrors(models, c)[i], models[i])
  {
    if c > 0 { ErrorsAre(models, c - 1); }
  }

  /** The stream is that of the first model that does not fail silently, a completion without tokens included; when all of
      them do, the errors tell which model failed with which status, and the exception carries the last one's. */
  lemma StreamLaw(models: seq<Model>) returns (c: nat)
    ensures c <= |models| && forall i :: 0 <= i < c ==> FailsSilently(models[i])
    ensures c < |models| ==> !FailsSilently(models[c])
    ensures Heard(Asked(models)) == if c < |models| then models[c].call.tokens else []
    ensures match EndingOf(models)
            case NoModels => models == []
            case Completed => c < |models| && models[c].call.fault.None?
            case BrokenOff(name) => c < |models| && models[c].call.fault.Some? && name == models[c].name
            case Exhausted(errors, status) =>
              && c == |models| == |errors| > 0 && status == errors[c - 1].status
              && forall i :: 0 <= i < c ==> SaysWhy(errors[i], models[i])
  {
    c := Speaker(models);
    OneModelHeard(models);
    ErrorsAre(models, c);
  }

  /** The line loop: tokens are yielded and counted one by one. */
  method Relay(tokens: seq<string>) returns (sent: seq<string>, chunksYielded: nat)
    ensures sent == tokens && chunksYielded == |tokens|
  {
    sent, chunksYielded := [], 0;
    while chunksYielded < |tokens|
      invariant chunksYielded <= |tokens| && sent == tokens[..chunksYielded]
    {
      sent := sent + [tokens[chunksYielded]];
      chunksYielded := chunksYielded + 1;
    }
  }

  /** `OpenRouterProvider.stream`. */
  method Stream(models: seq<Model>) returns (sent: seq<string>, ending: Ending)
    ensures sent == Heard(Asked(models))
    ensures ending == EndingOf(models)
  {
    sent := [];
    if models == [] {
      return sent, NoModels;
    }
    var errors := [];
    for i := 0 to |models|
      invariant sent == [] && errors == ModelErrors(models, i)
      invariant forall j :: 0 <= j < i ==> !Ends(models[j])
    {
      var call := models[i].call;
      if call.Refused? {
        errors := errors + [ModelError(models[i].name, Some(call.status))];
        continue;
      }
      var chunksYielded;
      sent, chunksYielded := Relay(call.tokens);
      if call.fault.None? || chunksYielded > 0 {
        StreamEndsAt(models, i);
        return sent, if call.fault.None? then Completed else BrokenOff(models[i].name);
      }
      errors := errors + [ModelError(models[i].name, None)];
    }
    StreamEndsNowhere(models);
    ending := Exhausted(errors, errors[|errors| - 1].status);
  }

  /** The reply to a non-streaming request. */
  datatype Reply = Status(code: int) | NoChoices | Raised | Content(text: string)

  function AsCall(r: Reply): ModelCall {
    match r
    case Status(code) => Refused(code)
    case NoChoices => Answers([], Some("No completion choices"))
    case Raised => Answers([], Some("exception"))
    case Content(text) => Answers([text], None)
  }

  ghost function AsModels(names: seq<string>, replies: seq<Reply>): seq<Model>
    requires |names| == |replies|
  {
    seq(|names|, i requires 0 <= i < |names| => Model(names[i], AsCall(replies[i])))
  }

  /** A non-streaming request hears the content of the first model that has one, and nothing else. */
  lemma ReplyLaw(names: seq<string>, replies: seq<Reply>) returns (c: nat)
    requires |names| == |replies|
    ensures c <= |replies| && forall i :: 0 <= i < c ==> !replies[i].Content?
    ensures c < |replies| ==> replies[c].Content?
    ensures Heard(Asked(AsModels(names, replies))) == if c < |replies| then [replies[c].text] else []
    ensures c < |replies| <==> EndingOf(AsModels(names, replies)).Completed?
  {
    var models := AsModels(names, replies);
    c := StreamLaw(models);
    forall i | 0 <= i < |replies| ensures FailsSilently(models[i]) <==> !replies[i].Content? {
      ReplyFails(names[i], replies[i]);
    }
  }

  /** When no model has content, the errors give the status of every model that answered one. */
  lemma ReplyErrors(names: seq<string>, replies: seq<Reply>)
    requires |names| == |replies| && EndingOf(AsModels(names, replies)).Exhausted?
    ensures var errors := EndingOf(AsModels(names, replies)).errors;
            && |errors| == |replies|
            && forall i :: 0 <= i < |replies| ==> errors[i] == ModelError(names[i], StatusOf(replies[i]))
  {
    var models := AsModels(names, replies);
    var errors := EndingOf(models).errors;
    var c := StreamLaw(models);
    forall i | 0 <= i < |replies| ensures errors[i] == ModelError(names[i], StatusOf(replies[i])) {
      assert SaysWhy(errors[i], models[i]);
    }
  }

  function StatusOf(r: Reply): Option<int> {
    if r.Status? then Some(r.code) else None
  }

  lemma ReplyFails(name: string, r: Reply)
    ensures var m := Model(name, AsCall(r));
            (FailsSilently(m) <==> !r.Content?) && (r.Content? ==> m.call.tokens == [r.text] && m.call.fault.None?)
  {
  }

  /** `OpenRouterProvider.generate`: the content of the first model that has one; it never breaks off. */
  method Generate(names: seq<string>, replies: seq<Reply>) returns (content: Option<string>, ending: Ending)
    requires |names| == |replies|
    ensures Pieces(content) == Heard(Asked(AsModels(names, replies)))
    ensures ending == EndingOf(AsModels(names, replies)) && !ending.BrokenOff?
  {
    content := None;
    if names == [] {
      return content, NoModels;
    }
    ghost var models := AsModels(names, replies);
    var errors := [];
    for i := 0 to |names|
      invariant errors == ModelErrors(models, i)
      invariant forall j :: 0 <= j < i ==> !Ends(models[j])
    {
      if replies[i].Content? {
        StreamEndsAt(models, i);
        return Some(replies[i].text), Completed;
      }
      errors := errors + [ModelError(names[i], if replies[i].Status? then Some(replies[i].code) else None)];
    }
    StreamEndsNowhere(models);
    ending := Exhausted(errors, errors[|errors| - 1].status);
  }

  // ---------------------------------------------------------------------------------------------
  // Under the manager
  // ---------------------------------------------------------------------------------------------

  /** One attempt of the manager is one `stream` call on these models: the chunks are the tokens heard, and it raises
      exactly when the call does. What the exception says, and whether that makes it retryable, is free. */
  ghost predicate IsStreamOf(t: Attempt, models: seq<Model>) {
    t.chunks == Heard(Asked(models)) && (t.fault.None? <==> EndingOf(models).Completed?)
  }

  /** The attempts of an entry are `stream` calls on these model scripts. */
  ghost predicate RunsModels(e: Entry, scripts: seq<seq<Model>>) {
    |scripts| == |e.attempts| && forall a :: 0 <= a < |scripts| ==> IsStreamOf(e.attempts[a], scripts[a])
  }

  /** A `stream` call that completes, or raises with tokens out, has put out the tokens of one model. */
  lemma OneCallHeard(t: Attempt, models: seq<Model>) returns (m: nat)
    requires IsStreamOf(t, models) && (t.fault.None? || t.chunks != [])
    ensures m < |models| && models[m].call.Answers? && models[m].call.tokens == t.chunks
    ensures t.fault.None? <==> models[m].call.fault.None?
  {
    OneModelHeard(models);
    m := Speaker(models);
  }

  /** The chunks of the attempt a request ends with are the tokens of one model call. */
  lemma FinalCallHeard(e: Entry, scripts: seq<seq<Model>>) returns (a: nat, m: nat)
    requires e.attempts != [] && Stops(e) && RunsModels(e, scripts)
    ensures a < |scripts| && m < |scripts[a]| && scripts[a][m].call.Answers?
    ensures scripts[a][m].call.tokens == Final(e).chunks
    ensures Final(e).fault.None? <==> scripts[a][m].call.fault.None?
  {
    a := Last(e.attempts, 0);
    assert IsStreamOf(e.attempts[a], scripts[a]);
    m := OneCallHeard(e.attempts[a], scripts[a]);
  }

  /** Across both layers, whatever was retried, skipped or failed over on either, the consumer receives the tokens of
      one model call of one attempt of one provider: all of them if the stream finishes, what came before the exception
      if it is interrupted, and nothing at all otherwise. */
  lemma LayersDoNotStitch(es: seq<Entry>, maxRetries: nat, initial: real, scripts: seq<seq<seq<Model>>>)
    requires Scripted(es, maxRetries) && |scripts| == |es|
    requires forall i :: 0 <= i < |es| ==> RunsModels(es[i], scripts[i])
    ensures var got := Received(Leaves(es, maxRetries, initial).trials);
            var verdict := Verdict(es, maxRetries, initial);
            if verdict.Finished? || verdict.Interrupted? then
              exists i, a, m :: 0 <= i < |es| && 0 <= a < |scripts[i]| && 0 <= m < |scripts[i][a]|
                                && es[i].name == verdict.provider
                                && scripts[i][a][m].call.Answers? && scripts[i][a][m].call.tokens == got
                                && (verdict.Finished? <==> scripts[i][a][m].call.fault.None?)
            else got == []
  {
    ReceivedIsFinal(es, maxRetries, initial);
    var c := Chosen(es, maxRetries);
    if c < |es| {
      assert RunsModels(es[c], scripts[c]);
      var a, m := FinalCallHeard(es[c], scripts[c]);
      assert scripts[c][a][m].call.tokens == Final(es[c]).chunks;
    }
  }
}
