/** What the user and the model get to see of a turn, stated over the model's replies as they
    came: which of them end the loop and with which text, what a reply that leads on adds to
    the conversation, and how long the loop is patient. */
module TurnLaws {
  import opened Compaction
  import opened Lines
  import opened Transcript
  import opened TurnLoop
  import opened Wrappers

  // ---------------------------------------------------------------------------
  // Final answers in tool calls
  // ---------------------------------------------------------------------------

  /** A final answer that the token budget cut off, but that can still be read. */
  predicate Rescued(c: NativeCall, finish: string) {
    c.name == "structured_output" && finish == "length" && (c.parseError || c.args.response == "") && c.recovered.Some?
  }

  predicate SaysFinal(c: NativeCall, finish: string) {
    c.name == "structured_output" && (c.args.final || Rescued(c, finish))
  }

  /** The answer in a final call. Arguments that do not parse leave none. */
  function AnswerIn(c: NativeCall, finish: string): string {
    if Rescued(c, finish) then c.recovered.value else if c.parseError then "" else c.args.response
  }

  /** The n-th call of a reply is its first final one. */
  ghost predicate FirstFinalCall(r: Response, n: nat) {
    && n < |r.calls| && SaysFinal(r.calls[n], r.finish)
    && forall i | 0 <= i < n :: !SaysFinal(r.calls[i], r.finish)
  }

  /** Arguments that did not parse are empty. */
  predicate ParsedOrEmpty(r: Response) {
    forall c <- r.calls :: c.parseError ==> c.args == Args(false, "")
  }

  /** The visible text, or what was last seen before. */
  function VisibleOr(text: string, otherwise: string): string {
    if TrimSpace(text) != "" then TrimSpace(text) else otherwise
  }

  lemma {:induction false} FoldedAt(calls: seq<ToolCall>, n: nat, content: string)
    requires n < |calls| && calls[n].tool == "structured_output" && calls[n].args.final
    requires forall i | 0 <= i < n :: !(calls[i].tool == "structured_output" && calls[i].args.final)
    ensures FoldedContent(calls, content) == if calls[n].args.response != "" then calls[n].args.response else content
    ensures ContainsTerminalFinal(calls)
  {
    if n > 0 {
      FoldedAt(calls[1..], n - 1, content);
    }
    assert Terminal(calls[n]);
  }

  lemma {:induction false} FoldedNowhere(calls: seq<ToolCall>, content: string)
    requires forall i | 0 <= i < |calls| :: !(calls[i].tool == "structured_output" && calls[i].args.final)
    ensures FoldedContent(calls, content) == content && !ContainsTerminalFinal(calls)
  {
    if calls != [] {
      FoldedNowhere(calls[1..], content);
    }
  }

  /** What is run are the native calls with their names, ids and arguments; a rescued answer
      is final. A lone rescued answer is taken at once. */
  lemma NativeCalls(r: Response)
    requires r.calls != [] && ParsedOrEmpty(r)
    ensures Collect(r).explicitFinal <==> |r.calls| == 1 && Rescued(r.calls[0], r.finish)
    ensures Collect(r).explicitFinal ==>
              Collect(r).calls == [] && Collect(r).content == (if r.calls[0].recovered.value != "" then r.calls[0].recovered.value else r.content)
    ensures !Collect(r).explicitFinal ==>
              && |Collect(r).calls| == |r.calls| && Collect(r).content == r.content
              && forall i | 0 <= i < |r.calls| ::
                   Collect(r).calls[i] == ToolCall(r.calls[i].name,
                                                   if Rescued(r.calls[i], r.finish) then Args(true, r.calls[i].recovered.value) else r.calls[i].args,
                                                   r.calls[i].id)
  {
    assert forall c <- r.calls :: Salvageable(c, r.finish) <==> Rescued(c, r.finish);
    assert r.calls[0] in r.calls;
    forall i | 0 <= i < |r.calls|
      ensures Executables(r.calls, r.finish)[i] ==
              ToolCall(r.calls[i].name, if Rescued(r.calls[i], r.finish) then Args(true, r.calls[i].recovered.value) else r.calls[i].args, r.calls[i].id)
    {
      assert r.calls[i] in r.calls;
    }
  }

  /** The calls of a reply whose first final call is the n-th, and the text they leave. */
  lemma FinalCallLeaves(r: Response, n: nat)
    requires FirstFinalCall(r, n) && ParsedOrEmpty(r)
    ensures AnswerText(r) == if AnswerIn(r.calls[n], r.finish) != "" then AnswerIn(r.calls[n], r.finish) else r.content
    ensures Collect(r).explicitFinal || ContainsTerminalFinal(Collect(r).calls)
  {
    hide Collect, FoldedContent, ContainsTerminalFinal;
    NativeCalls(r);
    assert r.calls[n] in r.calls;
    if Collect(r).explicitFinal {
      FoldedNowhere([], Collect(r).content);
    } else {
      FoldedAt(Collect(r).calls, n, Collect(r).content);
    }
  }

  /** A final call ends the loop: the calls before it run, and it is folded into the answer; a
      lone rescued answer is accepted. Only a batch that may run all at once goes on. */
  lemma FinalCallEnds(s: Settings, log: seq<Turn>, r: Response, n: nat)
    requires FirstFinalCall(r, n) && ParsedOrEmpty(r)
    ensures Landing(r) == CapAnswered
    ensures Decide(s, log, r) ==
            if |r.calls| == 1 && Rescued(r.calls[0], r.finish) then Accept
            else if |r.calls| >= 2 && forall c <- r.calls :: c.name in s.readOnly then RunTools
            else Fold
  {
    hide FoldedContent, Nudges, Retries, Raised, NextBudget, Recoverable;
    FinalCallLeaves(r, n);
    NativeCalls(r);
    var calls := Collect(r).calls;
    if !Collect(r).explicitFinal {
      assert calls[n].tool == "structured_output" && calls[n] in calls;
      AllReadOnlyIs(s.readOnly, r.calls, calls);
    }
  }

  lemma AllReadOnlyIs(readOnly: set<string>, native: seq<NativeCall>, calls: seq<ToolCall>)
    requires |calls| == |native| && forall i | 0 <= i < |calls| :: calls[i].tool == native[i].name
    ensures (forall c <- calls :: c.tool in readOnly) <==> (forall c <- native :: c.name in readOnly)
    ensures (forall c <- calls :: c.tool == "spawn_subagent") <==> (forall c <- native :: c.name == "spawn_subagent")
  {
    if forall c <- calls :: c.tool in readOnly {
      forall c | c in native ensures c.name in readOnly {
        var i :| 0 <= i < |native| && native[i] == c;
        assert calls[i] in calls;
      }
    }
    if forall c <- calls :: c.tool == "spawn_subagent" {
      forall c | c in native ensures c.name == "spawn_subagent" {
        var i :| 0 <= i < |native| && native[i] == c;
        assert calls[i] in calls;
      }
    }
  }

  /** The text shown is the answer in the first final call; without one the text next to the
      calls; and without that the last text seen. */
  lemma FinalCallIsShown(s: Settings, w: World, log: seq<Turn>, r: Response, n: nat, exit: Exit, text: string)
    requires FirstFinalCall(r, n) && ParsedOrEmpty(r)
    requires EndsAs(s, w, log, r, exit) && ShowsAs(s, w, log, r, exit, text)
    ensures exit.Answered? || exit.Folded? || exit.CapAnswered? || exit.Stopped? || exit.OverBudget?
    ensures exit.Answered? || exit.Folded? || exit.CapAnswered? ==>
              var answer := AnswerIn(r.calls[n], r.finish);
              && (TrimSpace(answer) != "" ==> text == TrimSpace(answer))
              && (answer == "" ==> text == VisibleOr(r.content, LastText(log)))
              && (answer != "" && TrimSpace(answer) == "" ==>
                    text == if exit.Folded? then VisibleOr(r.content, LastText(log)) else LastText(log))
  {
    hide TrimSpace, AnswerText, Collect, Decide, LastText, BudgetNotice, TruncationNotice, StepLimitNotice;
    FinalCallLeaves(r, n);
    FinalCallEnds(s, log, r, n);
    LastTextOn(log, Turn(r, Fold));
    BlankIsBlank();
  }

  lemma BlankIsBlank()
    ensures TrimSpace("") == ""
  {
  }

  /** The same of a whole run of the loop. */
  lemma RunShowsFinalCall(t: Task, start: Memory, sent: seq<Memory>, log: seq<Turn>, exit: Exit, text: string, now: Memory, n: nat)
    requires Concludes(t, start, sent, log, exit, text, now) && OutcomeOf(t.script, |log|).Reply? && |t.script| > |log|
    requires FirstFinalCall(t.script[|log|].reply, n) && ParsedOrEmpty(t.script[|log|].reply)
    requires exit.Answered? || exit.Folded? || exit.CapAnswered?
    ensures var r := t.script[|log|].reply;
            var answer := AnswerIn(r.calls[n], r.finish);
            && (TrimSpace(answer) != "" ==> text == TrimSpace(answer))
            && (answer == "" ==> text == VisibleOr(r.content, LastText(log)))
  {
    hide TrimSpace, LastText, EndsAs, ShowsAs, Closes, GoodUpTo, GoodReply;
    FinalCallIsShown(t.settings, t.world, log, t.script[|log|].reply, n, exit, text);
  }

  /** The text last seen is that of the latest turn that had any, leaving out turns that were to
      issue their calls again. */
  lemma {:induction false} LastSeenIs(log: seq<Turn>, k: nat)
    requires k < |log| && !log[k].decision.Reissue? && TrimSpace(log[k].reply.content) != ""
    requires forall i | k < i < |log| :: log[i].decision.Reissue? || TrimSpace(log[i].reply.content) == ""
    ensures LastText(log) == TrimSpace(log[k].reply.content)
    decreases |log|
  {
    if k < |log| - 1 {
      LastSeenIs(log[..|log| - 1], k);
    }
  }

  lemma {:induction false} NothingSeen(log: seq<Turn>)
    requires forall i | 0 <= i < |log| :: log[i].decision.Reissue? || TrimSpace(log[i].reply.content) == ""
    ensures LastText(log) == ""
  {
    if log != [] {
      NothingSeen(log[..|log| - 1]);
    }
  }

  // ---------------------------------------------------------------------------
  // Final answers and calls in plain text
  // ---------------------------------------------------------------------------

  lemma {:induction false} FirstFinalAt(objects: seq<TextObject>, m: nat)
    requires m < |objects| && objects[m].FinalAnswer? && forall i | 0 <= i < m :: !objects[i].FinalAnswer?
    ensures FirstFinal(objects) == Some(objects[m].response)
  {
    if m > 0 {
      FirstFinalAt(objects[1..], m - 1);
    }
  }

  lemma {:induction false} NoFirstFinal(objects: seq<TextObject>)
    requires forall o <- objects :: !o.FinalAnswer?
    ensures FirstFinal(objects) == None
  {
    if objects != [] {
      assert objects[0] in objects;
      NoFirstFinal(objects[1..]);
    }
  }

  /** A JSON object that says it is the final answer ends the loop with its text. */
  lemma FinalObjectIsShown(s: Settings, w: World, log: seq<Turn>, r: Response, m: nat, exit: Exit, text: string)
    requires r.calls == [] && m < |r.objects| && r.objects[m].FinalAnswer? && forall i | 0 <= i < m :: !r.objects[i].FinalAnswer?
    ensures Decide(s, log, r) == Accept && Landing(r) == CapAnswered
    ensures EndsAs(s, w, log, r, exit) && ShowsAs(s, w, log, r, exit, text) && (exit.Answered? || exit.CapAnswered?) ==>
              text == VisibleOr(r.objects[m].response, LastText(log))
  {
    hide TrimSpace, LastText, TruncationNotice, StepLimitNotice, BudgetNotice, NextBudget, Recoverable;
    FirstFinalAt(r.objects, m);
  }

  lemma TextCallOf(o: TextObject)
    ensures TextCalls([o]) == if o.Parsed? && o.call.tool != "" then [o.call] else []
  {
    assert [o][1..] == [];
  }

  /** The calls a text makes are its objects that name a tool, in order. */
  lemma {:induction false} TextCallsConcat(a: seq<TextObject>, b: seq<TextObject>)
    ensures TextCalls(a + b) == TextCalls(a) + TextCalls(b)
    ensures |a| == 1 ==> TextCalls(a) == if a[0].Parsed? && a[0].call.tool != "" then [a[0].call] else []
  {
    if a == [] {
      assert a + b == b;
    } else {
      assert (a + b)[0] == a[0] && (a + b)[1..] == a[1..] + b;
      TextCallsConcat(a[1..], b);
    }
    if |a| == 1 {
      assert a == [a[0]];
      TextCallOf(a[0]);
    }
  }

  lemma {:induction false} NamesOfTextCalls(objects: seq<TextObject>)
    ensures forall c :: c in TextCalls(objects) <==> exists o <- objects :: o.Parsed? && o.call == c && c.tool != ""
  {
    if objects != [] {
      NamesOfTextCalls(objects[1..]);
      assert objects == [objects[0]] + objects[1..];
    }
  }

  /** A final call found in text is folded like a native one. */
  lemma FinalTextCallIsShown(s: Settings, w: World, log: seq<Turn>, r: Response, m: nat, exit: Exit, text: string)
    requires r.calls == [] && (forall o <- r.objects :: !o.FinalAnswer?)
    requires m < |r.objects| && r.objects[m].call.tool == "structured_output" && r.objects[m].call.args.final
    requires forall i | 0 <= i < m :: !(r.objects[i].call.tool == "structured_output" && r.objects[i].call.args.final)
    ensures Landing(r) == CapAnswered
    ensures "structured_output" !in s.readOnly ==> Decide(s, log, r) == Fold
    ensures EndsAs(s, w, log, r, exit) && ShowsAs(s, w, log, r, exit, text) && (exit.Folded? || exit.CapAnswered?) ==>
              var answer := r.objects[m].call.args.response;
              && (TrimSpace(answer) != "" ==> text == TrimSpace(answer))
              && (answer == "" ==> text == VisibleOr(r.content, LastText(log)))
              && (answer != "" && TrimSpace(answer) == "" ==>
                    text == if exit.Folded? then VisibleOr(r.content, LastText(log)) else LastText(log))
  {
    hide TrimSpace, LastText, TruncationNotice, StepLimitNotice, BudgetNotice, NextBudget, Recoverable, TextCalls, FoldedContent, Retries, Raised, Nudges;
    NoFirstFinal(r.objects);
    TextFinalFolds(r.objects, m, r.content);
    LastTextOn(log, Turn(r, Fold));
    BlankIsBlank();
  }

  lemma TextFinalFolds(objects: seq<TextObject>, m: nat, content: string)
    requires forall o <- objects :: !o.FinalAnswer?
    requires m < |objects| && objects[m].call.tool == "structured_output" && objects[m].call.args.final
    requires forall i | 0 <= i < m :: !(objects[i].call.tool == "structured_output" && objects[i].call.args.final)
    ensures FoldedContent(TextCalls(objects), content) ==
            if objects[m].call.args.response != "" then objects[m].call.args.response else content
    ensures ContainsTerminalFinal(TextCalls(objects)) && exists c <- TextCalls(objects) :: c.tool == "structured_output"
  {
    var before, last, after := objects[..m], [objects[m]], objects[m + 1..];
    assert objects == before + last + after;
    TextCallsConcat(before + last, after);
    TextCallsConcat(before, last);
    TextCallOf(objects[m]);
    NamesOfTextCalls(before);
    var calls, n := TextCalls(objects), |TextCalls(before)|;
    assert calls[n] == objects[m].call && calls[n] in calls;
    forall i | 0 <= i < n ensures !(calls[i].tool == "structured_output" && calls[i].args.final) {
      assert calls[i] == TextCalls(before)[i] && calls[i] in TextCalls(before);
    }
    FoldedAt(calls, n, content);
  }

  /** A reply without calls or final objects is its own text. */
  lemma PlainTextIsShown(s: Settings, w: World, log: seq<Turn>, r: Response, exit: Exit, text: string)
    requires r.calls == [] && forall o <- r.objects :: o.Parsed? && o.call.tool == ""
    requires EndsAs(s, w, log, r, exit) && ShowsAs(s, w, log, r, exit, text)
    ensures exit.Answered? || exit.CapText? || exit.OutOfOutput? || exit.Stopped? || exit.OverBudget?
    ensures exit.Answered? || exit.CapText? ==> text == VisibleOr(r.content, LastText(log))
  {
    hide TrimSpace, LastText, TruncationNotice, StepLimitNotice, BudgetNotice, NextBudget, Recoverable, TextCalls, Retries, Raised, Nudges;
    NothingInText(r);
  }

  lemma {:induction false} NoTextCalls(objects: seq<TextObject>)
    requires forall o <- objects :: o.Parsed? && o.call.tool == ""
    ensures TextCalls(objects) == []
  {
    if objects != [] {
      assert objects[0] in objects;
      NoTextCalls(objects[1..]);
    }
  }

  lemma NothingInText(r: Response)
    requires r.calls == [] && forall o <- r.objects :: o.Parsed? && o.call.tool == ""
    ensures Collect(r) == Collected([], false, r.content)
  {
    NoFirstFinal(r.objects);
    NoTextCalls(r.objects);
  }

  // ---------------------------------------------------------------------------
  // Replies that are not final
  // ---------------------------------------------------------------------------

  /** The turns from the n-th on are those since the last tool round. */
  predicate Stretch(log: seq<Turn>, n: nat) {
    && n <= |log| && (n == 0 || log[n - 1].decision.RunTools?)
    && forall i | n <= i < |log| :: !log[i].decision.RunTools?
  }

  lemma {:induction false} EndsInStretch(log: seq<Turn>)
    ensures exists n: nat :: Stretch(log, n)
  {
    if log == [] || log[|log| - 1].decision.RunTools? {
      assert Stretch(log, |log|);
    } else {
      var before := log[..|log| - 1];
      EndsInStretch(before);
      var n: nat :| Stretch(before, n);
      forall i | n <= i < |log| ensures !log[i].decision.RunTools? {
        assert i < |before| ==> before[i] == log[i];
      }
      assert Stretch(log, n);
    }
  }

  ghost predicate Nudged(log: seq<Turn>, n: nat) {
    exists i: nat | n <= i < |log| :: log[i].decision.Nudge? || log[i].decision.Reissue?
  }

  /** The truncation retries of a stretch. */
  ghost function Retried(log: seq<Turn>, n: nat): set<nat> {
    set i: nat | n <= i < |log| && (log[i].decision.Continue? || log[i].decision.Raise?)
  }

  /** The budget the last raise of a stretch asked for, or 0. */
  ghost predicate InForce(log: seq<Turn>, n: nat, tokens: nat) {
    || (tokens == 0 && forall i | n <= i < |log| :: !log[i].decision.Raise?)
    || exists j: nat | n <= j < |log| && log[j].decision.Raise? ::
         log[j].decision.tokens == tokens && forall i | j < i < |log| :: !log[i].decision.Raise?
  }

  lemma {:induction false} NudgedInStretch(log: seq<Turn>, n: nat)
    requires Stretch(log, n)
    ensures Nudges(log) == 0 <==> !Nudged(log, n)
    decreases |log|
  {
    if n < |log| {
      var before := log[..|log| - 1];
      assert forall i: nat | i < |before| :: before[i] == log[i];
      NudgedInStretch(before, n);
    }
  }

  lemma {:induction false} RetriedInStretch(log: seq<Turn>, n: nat)
    requires Stretch(log, n)
    ensures Retries(log) == |Retried(log, n)|
    decreases |log|
  {
    if n < |log| {
      var before, d := log[..|log| - 1], log[|log| - 1].decision;
      assert forall i: nat | i < |before| :: before[i] == log[i];
      RetriedInStretch(before, n);
      var last: set<nat> := if d.Continue? || d.Raise? then {|log| - 1} else {};
      assert Retried(log, n) == Retried(before, n) + last;
    } else {
      assert Retried(log, n) == {};
    }
  }

  lemma {:induction false} RaisedInStretch(log: seq<Turn>, n: nat, tokens: nat)
    requires Stretch(log, n) && InForce(log, n, tokens)
    ensures Raised(log) == tokens
    decreases |log|
  {
    if n < |log| && !log[|log| - 1].decision.Raise? {
      var before := log[..|log| - 1];
      assert forall i: nat | i < |before| :: before[i] == log[i];
      if exists j: nat | n <= j < |log| && log[j].decision.Raise? ::
           log[j].decision.tokens == tokens && forall i | j < i < |log| :: !log[i].decision.Raise? {
        var j: nat :| n <= j < |log| && log[j].decision.Raise? &&
                      log[j].decision.tokens == tokens && forall i | j < i < |log| :: !log[i].decision.Raise?;
        assert j < |before| && before[j].decision.Raise?;
      }
      RaisedInStretch(before, n, tokens);
    }
  }

  /** Calls without a final one are run; where the token budget cut one off, all are asked for
      again, once in a stretch. */
  lemma CallsAreRun(s: Settings, log: seq<Turn>, r: Response, n: nat)
    requires Stretch(log, n) && r.calls != [] && ParsedOrEmpty(r) && forall c <- r.calls :: !SaysFinal(c, r.finish)
    ensures Landing(r) == CapInterrupted
    ensures Decide(s, log, r) ==
            if r.finish == "length" && (exists c <- r.calls :: c.cutOff) && !Nudged(log, n) then Reissue else RunTools
  {
    hide Nudged, Nudges, Concurrent, NextBudget, Recoverable, Retries, Raised;
    NudgedInStretch(log, n);
    NativeCalls(r);
    var calls := Collect(r).calls;
    assert !Rescued(r.calls[0], r.finish) by {
      assert r.calls[0] in r.calls;
    }
    forall i | 0 <= i < |calls| ensures !(calls[i].tool == "structured_output" && calls[i].args.final) {
      assert r.calls[i] in r.calls;
    }
    FoldedNowhere(calls, "");
  }

  /** And so are calls found in text. */
  lemma TextCallsAreRun(s: Settings, log: seq<Turn>, r: Response)
    requires r.calls == [] && (forall o <- r.objects :: !o.FinalAnswer?) && exists o <- r.objects :: o.call.tool != ""
    requires forall o <- r.objects :: !(o.call.tool == "structured_output" && o.call.args.final)
    ensures Decide(s, log, r) == RunTools && Landing(r) == CapInterrupted
    ensures Collect(r).calls == TextCalls(r.objects)
  {
    hide Nudges, Concurrent, NextBudget, Recoverable, Retries, Raised, TextCalls;
    NoFirstFinal(r.objects);
    NamesOfTextCalls(r.objects);
    var calls := TextCalls(r.objects);
    var o :| o in r.objects && o.call.tool != "";
    assert o.call in calls;
    forall i | 0 <= i < |calls| ensures !(calls[i].tool == "structured_output" && calls[i].args.final) {
      assert calls[i] in calls;
    }
    FoldedNowhere(calls, "");
  }

  /** A text cut off by its token budget is continued, or asked for again with twice the budget
      where nothing came of it, three times in a stretch, as far as the ceiling allows. */
  lemma TruncatedTextIsRetried(s: Settings, log: seq<Turn>, r: Response, n: nat, tokens: nat)
    requires Stretch(log, n) && InForce(log, n, tokens)
    requires r.calls == [] && forall o <- r.objects :: o.Parsed? && o.call.tool == ""
    requires r.finish == "length" || r.finish == "max_tokens" || r.finish == "model_context_window_exceeded"
    ensures Landing(r) == CapText
    ensures var base := if tokens > 0 then tokens else if s.configured > 0 then s.configured else 4096;
            Decide(s, log, r) ==
            if |Retried(log, n)| >= 3 then GiveUp
            else if TrimSpace(r.content) != "" || TrimSpace(r.reasoning) != "" then Continue
            else if 0 < s.ceiling <= base then GiveUp
            else Raise(if 0 < s.ceiling < base + base then s.ceiling else base + base)
  {
    hide Nudges, Retries, Raised, TrimSpace, Retried, InForce, Stretch;
    RetriedInStretch(log, n);
    RaisedInStretch(log, n, tokens);
    NothingInText(r);
  }

  /** A complete text is the answer, but for a preamble, which is nudged once in a stretch. */
  lemma CompleteTextIsAccepted(s: Settings, log: seq<Turn>, r: Response, n: nat)
    requires Stretch(log, n) && r.calls == [] && forall o <- r.objects :: o.Parsed? && o.call.tool == ""
    requires r.finish !in {"length", "max_tokens", "model_context_window_exceeded"}
    ensures Landing(r) == CapText
    ensures Decide(s, log, r) == if r.preamble && !Nudged(log, n) then Nudge else Accept
  {
    hide Nudges, Retries, Raised, Nudged, Stretch, NextBudget, Recoverable;
    NudgedInStretch(log, n);
    NothingInText(r);
  }

  // ---------------------------------------------------------------------------
  // When and with what notice the loop stops short
  // ---------------------------------------------------------------------------

  /** The step cap comes first, then cancellation, then the token budget. */
  lemma EndsEarlyExactlyIf(s: Settings, w: World, log: seq<Turn>, r: Response, exit: Exit)
    requires EndsAs(s, w, log, r, exit) && (s.maxSteps > 0 ==> |log| <= s.maxSteps)
    ensures exit.CapAnswered? || exit.CapInterrupted? || exit.CapText? <==> s.maxSteps > 0 && |log| >= s.maxSteps
    ensures exit.Stopped? <==> !(s.maxSteps > 0 && |log| >= s.maxSteps) && w.cancelled(|log|)
    ensures exit.OverBudget? <==>
              !(s.maxSteps > 0 && |log| >= s.maxSteps) && !w.cancelled(|log|) && w.budget > 0 && w.used(|log|) >= w.budget
    ensures exit.Answered? ==> Decide(s, log, r) == Accept
    ensures exit.Folded? ==> Decide(s, log, r) == Fold
    ensures exit.OutOfOutput? ==> Decide(s, log, r) == GiveUp
  {
  }

  /** Text that starts and ends visibly is not trimmed. */
  lemma TrimVisible(s: string)
    requires s != "" && !IsSpace(s[0]) && !IsSpace(s[|s| - 1])
    ensures TrimSpace(s) == s
  {
  }

  lemma NoticeIsVisible(note: string, heading: string, content: string)
    requires note != "" && !IsSpace(note[0]) && !IsSpace(note[|note| - 1])
    ensures TrimSpace(Notice(note, heading, content)) == Notice(note, heading, content) != ""
  {
    TrimSpaceKeepsEnds(content);
    hide TrimSpace;
    var notice := Notice(note, heading, content);
    assert notice[0] == note[0];
    assert TrimSpace(content) != "" ==> notice[|notice| - 1] == TrimSpace(content)[|TrimSpace(content)| - 1];
    TrimVisible(notice);
  }

  lemma MarkersAreVisible()
    ensures TRUNCATED_MARKER != "" && STEP_LIMIT_MARKER != "" && BUDGET_MARKER != ""
    ensures TRUNCATED_END != "" && STEP_LIMIT_END != "" && BUDGET_END != ""
    ensures !IsSpace(TRUNCATED_MARKER[0]) && !IsSpace(STEP_LIMIT_MARKER[0]) && !IsSpace(BUDGET_MARKER[0])
    ensures !IsSpace(TRUNCATED_END[|TRUNCATED_END| - 1]) && !IsSpace(STEP_LIMIT_END[|STEP_LIMIT_END| - 1])
    ensures !IsSpace(BUDGET_END[|BUDGET_END| - 1])
  {
  }

  lemma EndsAreVisible(marker: string, more: string, end: string)
    requires marker != "" && end != "" && !IsSpace(marker[0]) && !IsSpace(end[|end| - 1])
    ensures var note := marker + more + end;
            note != "" && !IsSpace(note[0]) && !IsSpace(note[|note| - 1])
  {
    hide IsSpace;
  }

  /** A notice, and the visible part of what the model had said. */
  predicate Reads(text: string, note: string, heading: string, content: string) {
    text == note + if TrimSpace(content) != "" then heading + TrimSpace(content) else ""
  }

  lemma NoticeReads(note: string, heading: string, content: string, log: seq<Turn>)
    requires note != "" && !IsSpace(note[0]) && !IsSpace(note[|note| - 1])
    ensures Reads(FinalText(Notice(note, heading, content), log), note, heading, content)
  {
    hide TrimSpace, LastText, IsSpace;
    NoticeIsVisible(note, heading, content);
    if TrimSpace(content) != "" {
      assert note + heading + TrimSpace(content) == note + (heading + TrimSpace(content));
    } else {
      assert note + "" == note;
    }
  }

  lemma MarkedNoticeReads(marker: string, more: string, end: string, heading: string, content: string, log: seq<Turn>)
    requires marker != "" && end != "" && !IsSpace(marker[0]) && !IsSpace(end[|end| - 1])
    ensures Reads(FinalText(Notice(marker + more + end, heading, content), log), marker + more + end, heading, content)
  {
    hide IsSpace, FinalText, Notice, Reads;
    EndsAreVisible(marker, more, end);
    NoticeReads(marker + more + end, heading, content, log);
  }

  /** A loop that stops short says why, and shows what the model had said last. */
  lemma NoticesAreShown(s: Settings, w: World, log: seq<Turn>, r: Response, exit: Exit, text: string)
    requires ShowsAs(s, w, log, r, exit, text)
    ensures exit.OutOfOutput? ==> Reads(text, TRUNCATED_MARKER + TRUNCATED_TEXT + TRUNCATED_END, PARTIAL_OUTPUT, r.content)
    ensures exit.OverBudget? ==> w.budget > 0
    ensures exit.OverBudget? ==>
              Reads(text, BUDGET_MARKER + (BUDGET_TEXT + Decimal(w.used(|log|)) + "/" + Decimal(w.budget)) + BUDGET_END, PARTIAL_PROGRESS, r.content)
    ensures exit.CapInterrupted? && Landing(r) == exit ==> s.maxSteps > 0
    ensures exit.CapInterrupted? && Landing(r) == exit ==>
              Reads(text, STEP_LIMIT_MARKER + (STEP_LIMIT_TEXT + Decimal(s.maxSteps) + STEP_LIMIT_TEXT2) + STEP_LIMIT_END, PARTIAL_PROGRESS, r.content)
    ensures exit.Stopped? || exit.Failed? ==> text == ""
  {
    hide TrimSpace, FinalText, Notice, Reads, Landing, AnswerText, Decimal, IsSpace,
         TRUNCATED_MARKER, TRUNCATED_TEXT, TRUNCATED_END, STEP_LIMIT_MARKER, STEP_LIMIT_TEXT, STEP_LIMIT_TEXT2, STEP_LIMIT_END,
         BUDGET_MARKER, BUDGET_TEXT, BUDGET_END, PARTIAL_OUTPUT, PARTIAL_PROGRESS;
    MarkersAreVisible();
    match exit
    case OutOfOutput =>
      MarkedNoticeReads(TRUNCATED_MARKER, TRUNCATED_TEXT, TRUNCATED_END, PARTIAL_OUTPUT, r.content, log + [Turn(r, GiveUp)]);
    case OverBudget =>
      MarkedNoticeReads(BUDGET_MARKER, BUDGET_TEXT + Decimal(w.used(|log|)) + "/" + Decimal(w.budget), BUDGET_END, PARTIAL_PROGRESS, r.content, log);
    case CapInterrupted =>
      MarkedNoticeReads(STEP_LIMIT_MARKER, STEP_LIMIT_TEXT + Decimal(s.maxSteps) + STEP_LIMIT_TEXT2, STEP_LIMIT_END, PARTIAL_PROGRESS, r.content, log);
    case _ =>
  }

  // ---------------------------------------------------------------------------
  // What the conversation gains
  // ---------------------------------------------------------------------------

  /** The answer to a call: under its id, or as text of the user when it has none. */
  predicate IsAnswer(m: Message, id: string, tool: string, text: string) {
    if id != "" then m == Message(Tool, text, [], id)
    else m == Message(User, "TOOL_RESULT[" + tool + "]: " + text, [], "")
  }

  /** Messages of the user with these texts, in order. */
  predicate AreTexts(ms: seq<Message>, texts: seq<string>) {
    |ms| == |texts| && forall i | 0 <= i < |ms| :: ms[i] == Message(User, texts[i], [], "")
  }

  /** After a tool round come the results, one per call and in order, each that of its tool. */
  lemma ResultsAreAdded(tools: Tools, r: Response)
    requires r.calls != [] && ParsedOrEmpty(r) && !(|r.calls| == 1 && Rescued(r.calls[0], r.finish))
    ensures var added := Added(tools, Turn(r, RunTools));
            && |added| == |r.calls|
            && forall i | 0 <= i < |added| :: IsAnswer(added[i], r.calls[i].id, r.calls[i].name, tools(i))
  {
    hide Collect;
    NativeCalls(r);
  }

  lemma TextResultsAreAdded(tools: Tools, r: Response)
    requires r.calls == [] && forall o <- r.objects :: !o.FinalAnswer?
    ensures var added, calls := Added(tools, Turn(r, RunTools)), TextCalls(r.objects);
            && |added| == |calls|
            && forall i | 0 <= i < |added| :: IsAnswer(added[i], calls[i].callId, calls[i].tool, tools(i))
  {
    hide TextCalls;
    NoFirstFinal(r.objects);
  }

  /** A call to issue again is told so, under its id; nothing else is added. */
  lemma ReissueIsAdded(tools: Tools, r: Response)
    ensures var added := Added(tools, Turn(r, Reissue));
            && |added| == |r.calls|
            && forall i | 0 <= i < |added| :: IsAnswer(added[i], r.calls[i].id, r.calls[i].name, REISSUE_NOTE)
  {
    hide REISSUE_NOTE;
  }

  lemma NothingIsAdded(tools: Tools, r: Response, d: Decision)
    requires d.Nudge? || d.Continue? || d.Raise?
    ensures Added(tools, Turn(r, d)) == []
  {
  }

  /** What goes along with the next request. Tool results are followed by a note of the user, if
      one waits and is to be taken up, and then by the background results, at the root only. */
  lemma NotesAreBrought(s: Settings, w: World, k: nat, d: Decision)
    ensures d.Nudge? ==> Brought(s, w, k, d) == [Message(User, CONTINUE_NOTE, [], "")]
    ensures d.Continue? || d.Raise? ==> Brought(s, w, k, d) == [Message(User, TRUNCATION_NOTE, [], "")]
    ensures d.Reissue? || (d.RunTools? && !s.root) ==> Brought(s, w, k, d) == []
    ensures d.RunTools? && s.root && s.inject && w.notes(k) != "" ==>
              AreTexts(Brought(s, w, k, d), ["[The user added a clarification: " + w.notes(k) + "]"] + w.background(k + 1))
    ensures d.RunTools? && s.root && !(s.inject && w.notes(k) != "") ==> AreTexts(Brought(s, w, k, d), w.background(k + 1))
  {
    hide CONTINUE_NOTE, TRUNCATION_NOTE;
  }

  /** The first request brings the message of the user, and the background results at the root. */
  lemma MessageIsBrought(t: Task)
    ensures AreTexts(Opening(t), [t.initialMessage] + if t.settings.root then t.world.background(0) else [])
  {
  }

  /** Each request is the last one, the reply to it, what the turn added, all that compacted
      where it is due, and what the turn brought. */
  lemma EachRequestContinues(t: Task, start: Memory, sent: seq<Memory>, log: seq<Turn>, k: nat)
    requires Conversation(t, start, sent, log) && Unhindered(t, log) && k < |sent|
    ensures k == 0 ==> exists kept | Compacts(start, t.window, t.promptTokens, t.world.answers(0), kept) ::
              sent[0] == Memory(kept.transcript + Opening(t), kept.tokens, kept.suppressed)
    ensures k > 0 ==>
              var turn, o, last := log[k - 1], t.script[k - 1], sent[k - 1];
              var said := Message(Assistant, turn.reply.content, turn.reply.calls, "");
              && o.Reply? && o.reply == turn.reply
              && exists kept |
                   Compacts(Memory(last.transcript + [said] + Added(t.world.results(k - 1), turn),
                                   if o.totalTokens > 0 then o.totalTokens else last.tokens, last.suppressed),
                            t.window, t.promptTokens, t.world.answers(k), kept) ::
                   sent[k] == Memory(kept.transcript + Brought(t.settings, t.world, k - 1, turn.decision), kept.tokens, kept.suppressed)
  {
    hide Compacts, Added, Brought, Opening;
    if k > 0 {
      assert LeadsTo(t, GoodUpTo(start, log, k), k - 1, sent[k - 1], log[k - 1], sent[k]);
    }
  }

  /** A request asks for another output budget exactly after a raise, and for that of the raise. */
  lemma BudgetIsAskedFor(sent: seq<Memory>, log: seq<Turn>, k: nat)
    requires |sent| <= |log| + 1 && k < |sent|
    ensures |Requests(sent, log)| == |sent| && Requests(sent, log)[k].messages == sent[k].transcript
    ensures Requests(sent, log)[k].maxTokens != 0 ==> k > 0 && log[k - 1].decision.Raise?
    ensures k > 0 && log[k - 1].decision.Raise? ==> Requests(sent, log)[k].maxTokens == log[k - 1].decision.tokens
  {
  }

  // ---------------------------------------------------------------------------
  // How the last reply is closed
  // ---------------------------------------------------------------------------

  /** A note for each of the calls from the n-th on. */
  predicate AreNotes(ms: seq<Message>, calls: seq<NativeCall>, n: nat, note: string) {
    n <= |calls| && |ms| == |calls| - n
    && forall i | 0 <= i < |ms| :: ms[i] == Message(Tool, note, [], calls[n + i].id)
  }

  lemma NotesAre(calls: seq<NativeCall>, n: nat, note: string)
    requires GoodIds(calls) && n <= |calls|
    ensures AreNotes(Notes(calls[n..], note), calls, n, note)
  {
    hide GoodIds;
    NonEmptyIds(calls);
  }

  /** When the loop ends without running the calls of its last reply, each gets a note that says
      why; where it gives up the notice replaces the reply; else nothing changes. */
  lemma CallsAreClosed(tools: Tools, r: Response, exit: Exit, before: seq<Message>, now: seq<Message>)
    requires before != [] && GoodReply(r) && Closes(tools, r, exit, before, now)
    ensures exit.Answered? || exit.CapAnswered? ==> exists notes | AreNotes(notes, r.calls, 0, FINAL_NOTE) :: now == before + notes
    ensures exit.CapInterrupted? ==> exists notes | AreNotes(notes, r.calls, 0, STEP_LIMIT_NOTE) :: now == before + notes
    ensures exit.OutOfOutput? ==>
              && |now| == |before| && now[..|now| - 1] == before[..|before| - 1]
              && now[|now| - 1] == Message(Assistant, TruncationNotice(r.content), r.calls, "")
    ensures exit.CapText? || exit.Stopped? || exit.OverBudget? || exit.Failed? ==> now == before
  {
    hide FINAL_NOTE, STEP_LIMIT_NOTE, Settled, AreNotes, GoodReply, TruncationNotice;
    SettledByNotes(r, FINAL_NOTE);
    SettledByNotes(r, STEP_LIMIT_NOTE);
  }

  lemma SettledByNotes(r: Response, note: string)
    requires GoodReply(r)
    ensures AreNotes(Settled(r, [], note), r.calls, 0, note)
  {
    hide AreNotes, Unanswered, GoodIds;
    FirstAreAnswered(r, []);
    NotesAre(r.calls, 0, note);
    assert r.calls[0..] == r.calls && [] + Notes(r.calls, note) == Notes(r.calls, note);
    assert r.calls == [] ==> Notes(r.calls, note) == [];
  }

  /** When it ends by a final call the calls before it have run, and it and the calls after it
      get a note. */
  lemma FoldIsClosed(tools: Tools, r: Response, n: nat, before: seq<Message>, now: seq<Message>)
    requires FirstFinalCall(r, n) && ParsedOrEmpty(r) && GoodReply(r) && !(|r.calls| == 1 && Rescued(r.calls[0], r.finish))
    requires before != [] && Closes(tools, r, Folded, before, now)
    ensures exists results, notes | |results| == n && AreNotes(notes, r.calls, n, FINAL_NOTE) ::
              && now == before + (results + notes)
              && forall i | 0 <= i < n :: results[i] == Message(Tool, tools(i), [], r.calls[i].id)
  {
    hide FINAL_NOTE, Unanswered, GoodIds, Collect, Settled;
    var executed :| RanToTerminal(r, tools, executed) && now == before + Settled(r, executed, FINAL_NOTE);
    NativeCalls(r);
    FirstTerminalIs(r, n, |executed|);
    ResultsRan(Collect(r).calls[..n], tools);
    SettledIs(r, executed, FINAL_NOTE);
    NonEmptyIds(r.calls);
    NotesAre(r.calls, n, FINAL_NOTE);
  }

  lemma FirstTerminalIs(r: Response, n: nat, m: nat)
    requires FirstFinalCall(r, n) && ParsedOrEmpty(r) && !(|r.calls| == 1 && Rescued(r.calls[0], r.finish))
    requires m < |Collect(r).calls| && Terminal(Collect(r).calls[m]) && !ContainsTerminalFinal(Collect(r).calls[..m])
    ensures m == n && |Collect(r).calls| == |r.calls|
  {
    hide Collect;
    NativeCalls(r);
    var calls := Collect(r).calls;
    assert r.calls[n] in r.calls && Terminal(calls[n]);
    NoneBefore(calls, m);
    assert r.calls[m] in r.calls;
  }

  lemma NoneBefore(calls: seq<ToolCall>, m: nat)
    requires m <= |calls| && !ContainsTerminalFinal(calls[..m])
    ensures forall i | 0 <= i < m :: !Terminal(calls[i])
  {
    hide Terminal;
    forall i | 0 <= i < m ensures !Terminal(calls[i]) {
      assert calls[..m][i] in calls[..m];
    }
  }

  lemma UnansweredIs(c: NativeCall, answered: set<string>)
    ensures Unanswered([c], answered) == if c.id == "" || c.id in answered then [] else [c]
  {
    assert [c][1..] == [];
  }

  /** The calls still to be answered: those with an id that is neither answered nor that of a call
      before. */
  lemma {:induction false} UnansweredAre(a: seq<NativeCall>, b: seq<NativeCall>, answered: set<string>)
    ensures Unanswered(a + b, answered) == Unanswered(a, answered) + Unanswered(b, answered + IdSet(a))
  {
    if a == [] {
      assert a + b == b && answered + IdSet(a) == answered;
    } else {
      assert (a + b)[0] == a[0] && (a + b)[1..] == a[1..] + b;
      var id, ids := a[0].id, IdSet(a[1..]);
      if id == "" {
        UnansweredAre(a[1..], b, answered);
        EmptyIdsAside(b, answered + ids);
        assert answered + ids + {""} == answered + ({""} + ids);
      } else if id in answered {
        UnansweredAre(a[1..], b, answered);
        assert answered + ids == answered + ({id} + ids);
      } else {
        UnansweredAre(a[1..], b, answered + {id});
        assert answered + {id} + ids == answered + ({id} + ids);
      }
    }
  }

  lemma {:induction false} EmptyIdsAside(calls: seq<NativeCall>, answered: set<string>)
    ensures Unanswered(calls, answered + {""}) == Unanswered(calls, answered)
  {
    if calls != [] {
      EmptyIdsAside(calls[1..], answered);
      EmptyIdsAside(calls[1..], answered + {calls[0].id});
      assert answered + {""} + {calls[0].id} == answered + {calls[0].id} + {""};
    }
  }

  // ---------------------------------------------------------------------------
  // Bounds, balance and failures, in these terms
  // ---------------------------------------------------------------------------

  /** Every turn that led on is a decision made on the turns before it. */
  lemma {:induction false} EachTurnFollows(s: Settings, log: seq<Turn>, k: nat)
    requires Follows(s, log) && k < |log|
    ensures log[k].decision == Decide(s, log[..k], log[k].reply)
    ensures log[k].decision != Accept && log[k].decision != Fold && log[k].decision != GiveUp
    decreases |log|
  {
    hide Decide;
    if k < |log| - 1 {
      EachTurnFollows(s, log[..|log| - 1], k);
      assert log[..|log| - 1][..k] == log[..k];
    }
  }

  ghost function ToolRounds(log: seq<Turn>): set<nat> {
    set i: nat | i < |log| && log[i].decision.RunTools?
  }

  lemma {:induction false} RoundsAre(log: seq<Turn>)
    ensures TurnLoop.Rounds(log) == |ToolRounds(log)|
  {
    if log == [] {
      assert ToolRounds(log) == {};
    } else {
      var before := log[..|log| - 1];
      RoundsAre(before);
      assert forall i: nat | i < |before| :: before[i] == log[i];
      var last: set<nat> := if log[|log| - 1].decision.RunTools? then {|log| - 1} else {};
      assert ToolRounds(log) == ToolRounds(before) + last;
    }
  }

  /** However long the model goes on, five requests for each tool round, and five more. */
  lemma RequestsAreFew(t: Task, start: Memory, sent: seq<Memory>, log: seq<Turn>)
    requires Follows(t.settings, log) && Conversation(t, start, sent, log)
    ensures |sent| <= 5 * |ToolRounds(log)| + 5
  {
    hide Conversation, Follows, ToolRounds;
    RoundTripsAreBounded(t, start, sent, log);
    RoundsAre(log);
  }

  /** The ids of a reply are present and distinct on its native calls, and absent on calls in its
      text. */
  predicate IdsAreGood(r: Response) {
    DistinctIds(r.calls) && forall i | 0 <= i < |r.objects| :: r.objects[i].Parsed? ==> r.objects[i].call.callId == ""
  }

  lemma IdsAreGoodIf(r: Response)
    ensures GoodReply(r) <==> IdsAreGood(r)
  {
    hide GoodIds;
    GoodIdsAre(r.calls);
    assert forall i | 0 <= i < |r.objects| :: r.objects[i] in r.objects;
  }

  lemma GoodSoFarIf(start: Memory, log: seq<Turn>, n: nat)
    requires InTurns(start.transcript) && forall k: nat | k < n && k < |log| :: IdsAreGood(log[k].reply)
    ensures GoodUpTo(start, log, n)
  {
    hide Balanced, InTurns, IdsAreGood, GoodReply;
    BalancedExactlyIf(start.transcript);
    forall k: nat | k < n && k < |log| ensures GoodReply(log[k].reply) {
      IdsAreGoodIf(log[k].reply);
    }
  }

  /** From a transcript in turns, as long as the ids are good, every request is in turns: each call
      has its result, and no result stands elsewhere. */
  lemma RequestsAreInTurns(t: Task, start: Memory, sent: seq<Memory>, log: seq<Turn>, k: nat)
    requires Conversation(t, start, sent, log) && k < |sent| && InTurns(start.transcript)
    requires forall j: nat | j < k && j < |log| :: IdsAreGood(log[j].reply)
    ensures InTurns(sent[k].transcript)
  {
    hide Conversation, InTurns, IdsAreGood, GoodUpTo, Balanced;
    GoodSoFarIf(start, log, k);
    RequestsAreBalanced(t, start, sent, log, k);
    BalancedExactlyIf(sent[k].transcript);
  }

  /** And so is what is left at the end, on every exit but the ones that leave the calls of the last
      reply as they are. */
  lemma EndsInTurns(t: Task, start: Memory, sent: seq<Memory>, log: seq<Turn>, exit: Exit, text: string, now: Memory)
    requires Concludes(t, start, sent, log, exit, text, now) && InTurns(start.transcript)
    requires forall j: nat | j < |log| :: IdsAreGood(log[j].reply)
    requires OutcomeOf(t.script, |log|).Reply? ==> IdsAreGood(OutcomeOf(t.script, |log|).reply)
    ensures InTurns(now.transcript) <==>
            !(exit.OverBudget? || exit.Stopped?) || OutcomeOf(t.script, |log|).Failure? || OutcomeOf(t.script, |log|).reply.calls == []
  {
    hide InTurns, IdsAreGood, GoodUpTo, Balanced, GoodReply, Closes, ShowsAs, EndsAs, Fails;
    GoodSoFarIf(start, log, |log|);
    BalancedExactlyIf(now.transcript);
    if OutcomeOf(t.script, |log|).Reply? {
      IdsAreGoodIf(OutcomeOf(t.script, |log|).reply);
    }
  }

  /** A failed round trip ends the loop without a text. Where the request went out the session holds
      what was sent; where it did not, what there was, compacted if that was due. */
  lemma FailureLeaves(t: Task, start: Memory, sent: seq<Memory>, log: seq<Turn>, exit: Exit, text: string, now: Memory)
    requires Concludes(t, start, sent, log, exit, text, now) && OutcomeOf(t.script, |log|).Failure? && |log| <= |sent|
    ensures exit == Failed && text == ""
    ensures OutcomeOf(t.script, |log|).sent ==> |sent| == |log| + 1 && now == sent[|log|]
    ensures !OutcomeOf(t.script, |log|).sent && log == [] ==>
              sent == [] && Compacts(start, t.window, t.promptTokens, t.world.answers(0), now)
    ensures !OutcomeOf(t.script, |log|).sent && log != [] ==>
              var k := |log| - 1;
              var said := Message(Assistant, log[k].reply.content, log[k].reply.calls, "");
              var size := if OutcomeOf(t.script, k).Reply? && OutcomeOf(t.script, k).totalTokens > 0 then OutcomeOf(t.script, k).totalTokens
                          else sent[k].tokens;
              |sent| == |log|
              && Compacts(Memory(sent[k].transcript + [said] + Added(t.world.results(k), log[k]), size, sent[k].suppressed),
                          t.window, t.promptTokens, t.world.answers(|log|), now)
  {
    hide Compacts, GoodUpTo, Balanced, Added;
  }
}
