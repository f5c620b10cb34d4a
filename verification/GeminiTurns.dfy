/** Building Gemini contents from a chat history: filtering, system-instruction injection, merging of same-role turns,
    and the opening greeting. */
module GeminiTurns {
  import opened Prelude

  const SEP := "\n\n"
  const GREETING := "Hello."

  datatype Role = User | Assistant

  datatype Turn = Turn(role: Role, text: string)

  /** A field of a history entry: absent or falsy, a string, or something else. */
  datatype Value = Missing | Str(s: string) | NotAString

  /** An element of the conversation history; it need not be a dictionary, nor have a usable role. */
  datatype Entry = NotADict | Dict(role: string, content: Value, message: Value)

  /** The request body: a bare string for an empty history, turns otherwise. */
  datatype Contents = Plain(text: string) | Turns(turns: seq<Turn>)

  predicate IsSpace(c: char) {
    c in " \t\n\r"
  }

  function LeftTrim(s: string): string {
    if s != "" && IsSpace(s[0]) then LeftTrim(s[1..]) else s
  }

  function RightTrim(s: string): string {
    if s != "" && IsSpace(s[|s| - 1]) then RightTrim(s[..|s| - 1]) else s
  }

  function Strip(s: string): string {
    RightTrim(LeftTrim(s))
  }

  /** `turn.get("content") or turn.get("message")`. */
  function Content(e: Entry): Value
    requires e.Dict?
  {
    if e.content.Missing? || e.content == Str("") then e.message else e.content
  }

  /** The turn an entry contributes, if any. */
  function Kept(e: Entry): Option<Turn> {
    if e.Dict? && e.role in {"user", "assistant"} && Content(e).Str? && Strip(Content(e).s) != "" then
      Some(Turn(if e.role == "user" then User else Assistant, Strip(Content(e).s)))
    else None
  }

  ghost function Filtered(history: seq<Entry>): seq<Turn> {
    if history == [] then []
    else
      var sofar, kept := Filtered(history[..|history| - 1]), Kept(history[|history| - 1]);
      if kept.Some? then sofar + [kept.value] else sofar
  }

  /** The first user turn, or the length. */
  function FirstUser(ts: seq<Turn>): (k: nat)
    ensures k <= |ts|
    ensures forall i :: 0 <= i < k ==> ts[i].role == Assistant
    ensures k < |ts| ==> ts[k].role == User
  {
    if ts == [] || ts[0].role == User then 0 else 1 + FirstUser(ts[1..])
  }

  function Prefixed(system: string, t: Turn): Turn {
    t.(text := system + SEP + t.text)
  }

  /** The turns with the system instruction placed in front of the first user turn, if there is one of each. */
  ghost function Injected(ts: seq<Turn>, system: string): seq<Turn> {
    var k := FirstUser(ts);
    if system == "" || k == |ts| then ts else ts[k := Prefixed(system, ts[k])]
  }

  /** The kept turns and, last, the prompt. */
  ghost function Conversation(history: seq<Entry>, prompt: string): seq<Turn> {
    Filtered(history) + [Turn(User, prompt)]
  }

  /** One turn more: appended to the last content if the role repeats. */
  function Extended(contents: seq<Turn>, t: Turn): seq<Turn> {
    var n := |contents|;
    if n > 0 && contents[n - 1].role == t.role then
      contents[n - 1 := contents[n - 1].(text := contents[n - 1].text + SEP + t.text)]
    else contents + [t]
  }

  ghost function Merged(ts: seq<Turn>): seq<Turn> {
    if ts == [] then [] else Extended(Merged(ts[..|ts| - 1]), ts[|ts| - 1])
  }

  function Greeted(contents: seq<Turn>): seq<Turn> {
    if contents != [] && contents[0].role != User then [Turn(User, GREETING)] + contents else contents
  }

  // ---------------------------------------------------------------------------------------------
  // Injection
  // ---------------------------------------------------------------------------------------------

  lemma {:induction false} FirstUserAppend(ts: seq<Turn>, t: Turn)
    ensures FirstUser(ts + [t]) == if FirstUser(ts) < |ts| || t.role == User then FirstUser(ts) else |ts| + 1
  {
    if ts != [] && ts[0].role != User {
      assert (ts + [t])[1..] == ts[1..] + [t];
      FirstUserAppend(ts[1..], t);
    }
  }

  /** What `first_user_injected` stands for: there is an instruction, and a user turn to carry it. */
  ghost predicate HasInjected(ts: seq<Turn>, system: string) {
    system != "" && FirstUser(ts) < |ts|
  }

  /** Injection turn by turn. */
  lemma InjectedAppend(ts: seq<Turn>, system: string, t: Turn)
    ensures var here := system != "" && !HasInjected(ts, system) && t.role == User;
            && Injected(ts + [t], system) == Injected(ts, system) + [if here then Prefixed(system, t) else t]
            && HasInjected(ts + [t], system) == (HasInjected(ts, system) || here)
  {
    FirstUserAppend(ts, t);
  }

  lemma FilteredStep(history: seq<Entry>, i: nat)
    requires i < |history|
    ensures Filtered(history[..i + 1])
            == if Kept(history[i]).Some? then Filtered(history[..i]) + [Kept(history[i]).value] else Filtered(history[..i])
  {
    assert history[..i + 1][..i] == history[..i];
  }

  /** The system instruction goes into exactly one turn of the conversation, a user turn, in front of its text; every
      other turn is as it was. */
  lemma InjectedOnce(history: seq<Entry>, prompt: string, system: string)
    requires system != ""
    ensures var plain := Conversation(history, prompt);
            var raw := Injected(plain, system);
            && |raw| == |plain|
            && exists k ::
                 && 0 <= k < |raw| && raw[k].role == User && raw[k].text == system + "\n\n" + plain[k].text
                 && (forall i :: 0 <= i < k ==> raw[i].role == Assistant)
                 && (forall i :: 0 <= i < |raw| && i != k ==> raw[i] == plain[i])
  {
    var plain := Conversation(history, prompt);
    FirstUserAppend(Filtered(history), Turn(User, prompt));
    var k := FirstUser(plain);
    assert Injected(plain, system)[k] == Prefixed(system, plain[k]);
  }

  // ---------------------------------------------------------------------------------------------
  // From the history to the turns
  // ---------------------------------------------------------------------------------------------

  ghost predicate Blank(s: string) {
    forall i :: 0 <= i < |s| ==> s[i] in {' ', '\t', '\n', '\r'}
  }

  /** `t` is `s` without the blanks around it, and something is left. */
  ghost predicate Trims(s: string, t: string) {
    && t != "" && !Blank(t[..1]) && !Blank(t[|t| - 1..])
    && exists a, b :: s == a + t + b && Blank(a) && Blank(b)
  }

  /** The entry says `s`: in its content, or in its message if the content is absent or empty. */
  predicate Says(e: Entry, s: string) {
    && e.Dict? && s != ""
    && (e.content == Str(s) || ((e.content == Missing || e.content == Str("")) && e.message == Str(s)))
  }

  /** An entry of the user or the assistant that says something. */
  ghost predicate Usable(e: Entry) {
    && e.Dict? && (e.role == "user" || e.role == "assistant")
    && exists s :: Says(e, s) && !Blank(s)
  }

  /** The turn carries what the entry says, under the entry's role. */
  ghost predicate Carries(t: Turn, e: Entry) {
    && e.Dict? && (t.role == User <==> e.role == "user") && (t.role == Assistant <==> e.role == "assistant")
    && exists s :: Says(e, s) && Trims(s, t.text)
  }

  lemma BlankParts(a: string, b: string)
    ensures Blank(a + b) <==> Blank(a) && Blank(b)
  {
    if Blank(a + b) {
      forall i | 0 <= i < |a| ensures a[i] in {' ', '\t', '\n', '\r'} { assert (a + b)[i] == a[i]; }
      forall i | 0 <= i < |b| ensures b[i] in {' ', '\t', '\n', '\r'} { assert (a + b)[|a| + i] == b[i]; }
    }
  }

  lemma {:induction false} LeftTrimmed(s: string) returns (a: string)
    ensures s == a + LeftTrim(s) && Blank(a)
    ensures LeftTrim(s) == "" || !Blank(LeftTrim(s)[..1])
  {
    if s != "" && IsSpace(s[0]) {
      var rest := LeftTrimmed(s[1..]);
      a := [s[0]] + rest;
      assert s == [s[0]] + s[1..];
    } else {
      a := "";
      if s != "" { assert LeftTrim(s)[..1][0] == s[0]; }
    }
  }

  lemma {:induction false} RightTrimmed(s: string) returns (b: string)
    ensures s == RightTrim(s) + b && Blank(b)
    ensures RightTrim(s) == "" || !Blank(RightTrim(s)[|RightTrim(s)| - 1..])
  {
    if s == "" {
      b := "";
    } else {
      var init, last := s[..|s| - 1], [s[|s| - 1]];
      assert s == init + last;
      if IsSpace(s[|s| - 1]) {
        var rest := RightTrimmed(init);
        b := rest + last;
        BlankParts(rest, last);
      } else {
        b := "";
        assert s[|s| - 1..] == last && last[0] == s[|s| - 1];
      }
    }
  }

  /** `str.strip`. */
  lemma Stripped(s: string)
    ensures Strip(s) == "" <==> Blank(s)
    ensures Strip(s) != "" ==> Trims(s, Strip(s))
  {
    var a := LeftTrimmed(s);
    var left := LeftTrim(s);
    var b := RightTrimmed(left);
    var t := RightTrim(left);
    BlankParts(a, left);
    BlankParts(t, b);
    if t != "" {
      assert s == a + t + b;
      assert t[..1] == left[..1];
      BlankParts(t[..1], t[1..]);
      assert t == t[..1] + t[1..];
    }
  }

  /** What filtering keeps of an entry. */
  lemma KeptCarries(e: Entry)
    ensures Kept(e).Some? <==> Usable(e)
    ensures Kept(e).Some? ==> Carries(Kept(e).value, e)
  {
    if e.Dict? && Content(e).Str? {
      var s := Content(e).s;
      Stripped(s);
      if s != "" { assert Says(e, s); }
      assert Blank("");
      assert forall x :: Says(e, x) ==> x == s;
    }
  }

  /** The turns are those of the usable entries, at the positions `at` of the history. */
  ghost predicate Matches(history: seq<Entry>, at: seq<nat>, turns: seq<Turn>) {
    && |turns| == |at| && (forall p :: 0 <= p < |at| ==> at[p] < |history|)
    && (forall p, q :: 0 <= p < q < |at| ==> at[p] < at[q])
    && (forall i: nat :: i < |history| ==> (i in at <==> Usable(history[i])))
    && forall p :: 0 <= p < |at| ==> Carries(turns[p], history[at[p]])
  }

  lemma MatchesMore(history: seq<Entry>, at: seq<nat>, turns: seq<Turn>, e: Entry, t: Turn)
    requires Matches(history, at, turns) && Usable(e) && Carries(t, e)
    ensures Matches(history + [e], at + [|history|], turns + [t])
  {
    var more := at + [|history|];
    forall i: nat | i < |history| + 1 ensures i in more <==> Usable((history + [e])[i]) {
      if i == |history| { assert more[|at|] == i; }
    }
  }

  lemma MatchesSkip(history: seq<Entry>, at: seq<nat>, turns: seq<Turn>, e: Entry)
    requires Matches(history, at, turns) && !Usable(e)
    ensures Matches(history + [e], at, turns)
  {
  }

  lemma {:induction false} FilteredMatches(history: seq<Entry>) returns (at: seq<nat>)
    ensures Matches(history, at, Filtered(history))
    decreases |history|
  {
    if history == [] {
      at := [];
    } else {
      var init, e := history[..|history| - 1], history[|history| - 1];
      at := FilteredMatches(init);
      KeptCarries(e);
      assert init + [e] == history;
      if Usable(e) {
        MatchesMore(init, at, Filtered(init), e, Kept(e).value);
        at := at + [|init|];
      } else {
        MatchesSkip(init, at, Filtered(init), e);
      }
    }
  }

  /** The turns of the conversation are, in order, the usable entries of the history, each under its role and with its text
      trimmed, and last the prompt. */
  lemma ConversationCarries(history: seq<Entry>, prompt: string) returns (at: seq<nat>)
    ensures var turns := Conversation(history, prompt);
            && turns != [] && turns[|turns| - 1] == Turn(User, prompt)
            && Matches(history, at, turns[..|turns| - 1])
  {
    at := FilteredMatches(history);
    assert Conversation(history, prompt)[..|Filtered(history)|] == Filtered(history);
  }

  // ---------------------------------------------------------------------------------------------
  // Merging
  // ---------------------------------------------------------------------------------------------

  ghost predicate Alternates(contents: seq<Turn>) {
    forall i :: 0 < i < |contents| ==> contents[i - 1].role != contents[i].role
  }

  /** The texts of turns, joined by blank lines. */
  ghost function Joined(ts: seq<Turn>): string {
    if ts == [] then "" else if |ts| == 1 then ts[0].text else Joined(ts[..|ts| - 1]) + SEP + ts[|ts| - 1].text
  }

  ghost predicate IsRun(run: seq<Turn>, role: Role) {
    run != [] && forall i :: 0 <= i < |run| ==> run[i].role == role
  }

  ghost function Concat(runs: seq<seq<Turn>>): seq<Turn> {
    if runs == [] then [] else Concat(runs[..|runs| - 1]) + runs[|runs| - 1]
  }

  /** `runs` cuts the turns into the contents: every content is the join of one run of its role. */
  ghost predicate Cuts(runs: seq<seq<Turn>>, ts: seq<Turn>, contents: seq<Turn>) {
    && Concat(runs) == ts && |runs| == |contents|
    && forall i :: 0 <= i < |runs| ==> IsRun(runs[i], contents[i].role) && contents[i].text == Joined(runs[i])
  }

  lemma CutsExtend(runs: seq<seq<Turn>>, ts: seq<Turn>, contents: seq<Turn>, t: Turn) returns (more: seq<seq<Turn>>)
    requires Cuts(runs, ts, contents)
    ensures Cuts(more, ts + [t], Extended(contents, t))
  {
    var n := |contents|;
    if n > 0 && contents[n - 1].role == t.role {
      var run := runs[n - 1] + [t];
      assert run[..|run| - 1] == runs[n - 1];
      more := runs[n - 1 := run];
      assert more[..n - 1] == runs[..n - 1];
      assert Concat(runs[..n - 1]) + run == Concat(runs) + [t];
    } else {
      more := runs + [[t]];
      assert more[..n] == runs;
    }
  }

  lemma ExtendedShape(contents: seq<Turn>, t: Turn)
    ensures var e := Extended(contents, t);
            && e != [] && e[|e| - 1].role == t.role
            && e[0].role == (if contents == [] then t.role else contents[0].role)
            && (Alternates(contents) ==> Alternates(e))
  {
  }

  /** Merging cuts the turns into maximal same-role runs: consecutive contents have different roles, and nothing is lost,
      repeated or reordered. */
  lemma {:induction false} MergeCuts(ts: seq<Turn>) returns (runs: seq<seq<Turn>>)
    ensures Cuts(runs, ts, Merged(ts))
    ensures Alternates(Merged(ts))
    ensures ts != [] ==> Merged(ts) != [] && Merged(ts)[0].role == ts[0].role
                         && Merged(ts)[|Merged(ts)| - 1].role == ts[|ts| - 1].role
  {
    if ts == [] {
      runs := [];
    } else {
      var init, t := ts[..|ts| - 1], ts[|ts| - 1];
      var before := MergeCuts(init);
      runs := CutsExtend(before, init, Merged(init), t);
      ExtendedShape(Merged(init), t);
      assert init + [t] == ts;
    }
  }

  /** The text of the contents, read from top to bottom, is the text of the turns. */
  lemma {:induction false} MergeKeepsText(ts: seq<Turn>)
    ensures Joined(Merged(ts)) == Joined(ts)
  {
    if ts != [] {
      var init, t := ts[..|ts| - 1], ts[|ts| - 1];
      MergeKeepsText(init);
      var m := Merged(init);
      var e := Extended(m, t);
      if init != [] {
        var runs := MergeCuts(init);
        if m[|m| - 1].role == t.role {
          assert e[..|e| - 1] == m[..|m| - 1];
          if |m| > 1 { JoinAppend(m[..|m| - 1], m[|m| - 1].text, t.text); }
        } else {
          assert e[..|e| - 1] == m;
        }
      }
    }
  }

  lemma JoinAppend(head: seq<Turn>, a: string, b: string)
    ensures Joined(head) + SEP + (a + SEP + b) == Joined(head) + SEP + a + SEP + b
  {
  }

  lemma InjectedRoles(ts: seq<Turn>, system: string)
    ensures |Injected(ts, system)| == |ts|
    ensures forall i :: 0 <= i < |ts| ==> Injected(ts, system)[i].role == ts[i].role
  {
  }

  lemma GreetedShape(contents: seq<Turn>)
    requires contents != [] && Alternates(contents)
    ensures var chat := Greeted(contents);
            && chat != [] && chat[0].role == User && chat[|chat| - 1] == contents[|contents| - 1] && Alternates(chat)
  {
  }

  /** What Gemini requires of a chat: turns alternate, and both the first and the last are the user's. */
  lemma WellFormedChat(history: seq<Entry>, prompt: string, system: string)
    ensures var raw := Injected(Conversation(history, prompt), system);
            var chat := Greeted(Merged(raw));
            && chat != [] && chat[0].role == User && chat[|chat| - 1].role == User
            && Alternates(chat)
            && (chat == Merged(raw) || (raw[0].role == Assistant && chat == [Turn(User, GREETING)] + Merged(raw)))
  {
    var plain := Conversation(history, prompt);
    InjectedRoles(plain, system);
    var raw := Injected(plain, system);
    assert raw[|raw| - 1].role == plain[|plain| - 1].role;
    var runs := MergeCuts(raw);
    GreetedShape(Merged(raw));
  }

  lemma {:induction false} JoinedCons(t: Turn, ts: seq<Turn>)
    requires ts != []
    ensures Joined([t] + ts) == t.text + "\n\n" + Joined(ts)
  {
    var all := [t] + ts;
    if |ts| == 1 {
      assert all[..1] == [t];
    } else {
      var init := ts[..|ts| - 1];
      JoinedCons(t, init);
      assert all[..|all| - 1] == [t] + init;
      assert t.text + "\n\n" + Joined(init) + SEP + ts[|ts| - 1].text
          == t.text + "\n\n" + (Joined(init) + SEP + ts[|ts| - 1].text);
    }
  }

  /** Read from top to bottom, a chat is the turns of the conversation with blank lines between them, after a greeting if
      the assistant would have opened it. */
  lemma ChatText(history: seq<Entry>, prompt: string, system: string)
    ensures var raw := Injected(Conversation(history, prompt), system);
            Joined(Greeted(Merged(raw))) == if raw[0].role == User then Joined(raw) else "Hello.\n\n" + Joined(raw)
  {
    var raw := Injected(Conversation(history, prompt), system);
    var runs := MergeCuts(raw);
    MergeKeepsText(raw);
    if raw[0].role != User {
      JoinedCons(Turn(User, GREETING), Merged(raw));
      assert "Hello." + "\n\n" == "Hello.\n\n";
    }
  }

  // ---------------------------------------------------------------------------------------------
  // The code
  // ---------------------------------------------------------------------------------------------

  /** `_build_contents`. */
  method BuildContents(history: seq<Entry>, prompt: string, system: string) returns (result: Contents)
    ensures history == [] ==> result == Plain(if system != "" then system + "\n\n" + prompt else prompt)
    ensures history != [] ==> result == Turns(Greeted(Merged(Injected(Conversation(history, prompt), system))))
  {
    if history == [] {
      return Plain(if system != "" then system + SEP + prompt else prompt);
    }
    var raw := CollectTurns(history, prompt, system);
    var contents := MergeTurns(raw);
    if contents != [] && contents[0].role != User {
      contents := [Turn(User, GREETING)] + contents;
    }
    result := Turns(contents);
  }

  /** The filtering loop with its `first_user_injected` flag, then the prompt. */
  method CollectTurns(history: seq<Entry>, prompt: string, system: string) returns (raw: seq<Turn>)
    ensures raw == Injected(Conversation(history, prompt), system)
  {
    raw := [];
    var injected := false;
    for i := 0 to |history|
      invariant raw == Injected(Filtered(history[..i]), system) && injected == HasInjected(Filtered(history[..i]), system)
    {
      FilteredStep(history, i);
      var kept := Kept(history[i]);
      if kept.Some? {
        raw, injected := AddTurn(Filtered(history[..i]), raw, injected, kept.value, system);
      }
    }
    assert history[..|history|] == history;
    raw, injected := AddTurn(Filtered(history), raw, injected, Turn(User, prompt), system);
  }

  /** One turn appended, carrying the instruction if it is due. */
  method AddTurn(ghost sofar: seq<Turn>, raw: seq<Turn>, injected: bool, t: Turn, system: string)
    returns (longer: seq<Turn>, done: bool)
    requires raw == Injected(sofar, system) && injected == HasInjected(sofar, system)
    ensures longer == Injected(sofar + [t], system) && done == HasInjected(sofar + [t], system)
  {
    InjectedAppend(sofar, system, t);
    var turn := t;
    done := injected;
    if !injected && t.role == User && system != "" {
      turn := turn.(text := system + SEP + turn.text);
      done := true;
    }
    longer := raw + [turn];
  }

  /** The merging loop. */
  method MergeTurns(raw: seq<Turn>) returns (contents: seq<Turn>)
    ensures contents == Merged(raw)
  {
    contents := [];
    for i := 0 to |raw|
      invariant contents == Merged(raw[..i])
    {
      assert raw[..i + 1][..i] == raw[..i];
      var n := |contents|;
      if n > 0 && contents[n - 1].role == raw[i].role {
        contents := contents[n - 1 := contents[n - 1].(text := contents[n - 1].text + SEP + raw[i].text)];
      } else {
        contents := contents + [raw[i]];
      }
    }
    assert raw[..|raw|] == raw;
  }
}
