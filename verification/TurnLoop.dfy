/** The agent's turn loop against an adversarial model: it sends the transcript, reads the
    reply, runs its tool calls or asks again, and stops. Whatever the model answers, every
    request is made on a balanced transcript and the number of requests is bounded. What the
    model and the user get to see is stated over the replies themselves in TurnLaws. */
module TurnLoop {
  import opened Compaction
  import opened Lines
  import opened Transcript
  import opened Wrappers

  const MAX_NUDGES := 1
  const MAX_TRUNCATION_RETRIES := 3
  const BUDGET_MULTIPLIER := 2
  const DEFAULT_MAX_TOKENS := 4096

  const CONTINUE_NOTE := "[Continue: call the tools you described, or state that you are done.]"
  const REISSUE_NOTE := "[Your previous tool call was cut off before its arguments finished. Re-issue that tool call in full, with complete JSON arguments.]"
  const TRUNCATION_NOTE := "[Your previous response was cut off because it reached the output token limit. Continue from where you left off and finish your answer concisely.]"
  const FINAL_NOTE := "[Final answer recorded and delivered to the user.]"
  const TRUNCATED_MARKER := "OUTPUT_TRUNCATED"
  const TRUNCATED_TEXT := ": the model's output was cut off by its max_tokens budget and could not be completed after retrying. Raise the model's max_tokens or lower its reasoning_effort, "
  const TRUNCATED_END := "then try again."
  const PARTIAL_OUTPUT := "\n\nPartial output before truncation:\n"
  const STEP_LIMIT_MARKER := "STEP_LIMIT_REACHED"
  const STEP_LIMIT_TEXT := ": reached the per-turn step cap ("
  const STEP_LIMIT_TEXT2 := "); the task was interrupted. "
  const STEP_LIMIT_END := "Type a message to continue."
  const BUDGET_MARKER := "BUDGET_EXCEEDED"
  const BUDGET_TEXT := ": token budget reached ("
  const BUDGET_END := " tokens); stopping early."
  const PARTIAL_PROGRESS := "\n\nPartial progress before stopping:\n"
  const NOTE_START := "[The user added a clarification: "
  const NOTE_END := "]"
  const STEP_LIMIT_NOTE := "[Tool call not executed: the per-turn step cap was reached before this call ran. Re-issue it if still needed.]"

  // ---------------------------------------------------------------------------
  // Replies and the calls they make
  // ---------------------------------------------------------------------------

  /** A JSON object found in the text of a reply: a final answer, or what parses as a call
      (naming no tool when it is none). */
  datatype TextObject = FinalAnswer(response: string) | Parsed(call: ToolCall)

  /** A reply of the model, with the JSON objects its text holds and whether the text reads
      as a preamble to a next action. */
  datatype Response = Response(
    content: string, reasoning: string, calls: seq<NativeCall>, finish: string,
    objects: seq<TextObject>, preamble: bool)

  /** One round trip: it fails, before or after the request went out, or yields a reply. */
  datatype Outcome = Failure(sent: bool) | Reply(reply: Response, totalTokens: nat)

  /** Native call ids are present and distinct, and calls in plain text carry none. */
  predicate GoodReply(r: Response) {
    GoodIds(r.calls) && forall o <- r.objects :: o.Parsed? ==> o.call.callId == ""
  }

  function AssistantMessage(r: Response): Message {
    Message(Assistant, r.content, r.calls, "")
  }

  predicate IsTruncated(finish: string) {
    finish in ["length", "max_tokens", "model_context_window_exceeded"]
  }

  predicate CutOff(r: Response) {
    exists c <- r.calls :: c.cutOff
  }

  predicate Terminal(call: ToolCall) {
    call.tool == "structured_output" && call.args.final
  }

  predicate ContainsTerminalFinal(calls: seq<ToolCall>) {
    exists c <- calls :: Terminal(c)
  }

  /** A final answer cut off by the token budget that can still be read. */
  predicate Salvageable(c: NativeCall, finish: string) {
    && c.name == "structured_output" && finish == "length"
    && (c.parseError || c.args.response == "") && c.recovered.Some?
  }

  function Executable(c: NativeCall, finish: string): ToolCall {
    if Salvageable(c, finish) then
      ToolCall(c.name, Args(true, if c.recovered.value != "" then c.recovered.value else c.args.response), c.id)
    else ToolCall(c.name, c.args, c.id)
  }

  function Executables(calls: seq<NativeCall>, finish: string): seq<ToolCall> {
    seq(|calls|, i requires 0 <= i < |calls| => Executable(calls[i], finish))
  }

  function FirstFinal(objects: seq<TextObject>): Option<string> {
    if objects == [] then None
    else if objects[0].FinalAnswer? then Some(objects[0].response)
    else FirstFinal(objects[1..])
  }

  function TextCalls(objects: seq<TextObject>): seq<ToolCall> {
    if objects == [] then []
    else if objects[0].Parsed? && objects[0].call.tool != "" then [objects[0].call] + TextCalls(objects[1..])
    else TextCalls(objects[1..])
  }

  /** The calls to run, whether the reply is an explicit final answer, and its text then. */
  datatype Collected = Collected(calls: seq<ToolCall>, explicitFinal: bool, content: string)

  function Collect(r: Response): Collected {
    if r.calls != [] then
      if |r.calls| == 1 && Salvageable(r.calls[0], r.finish) then
        Collected([], true, if r.calls[0].recovered.value != "" then r.calls[0].recovered.value else r.content)
      else Collected(Executables(r.calls, r.finish), false, r.content)
    else if FirstFinal(r.objects).Some? then Collected([], true, FirstFinal(r.objects).value)
    else Collected(TextCalls(r.objects), false, r.content)
  }

  method CollectToolCalls(r: Response) returns (c: Collected)
    ensures c == Collect(r)
  {
    if |r.calls| > 0 {
      var calls := [];
      for i := 0 to |r.calls|
        invariant calls == Executables(r.calls, r.finish)[..i]
        invariant i > 0 ==> !(|r.calls| == 1 && Salvageable(r.calls[0], r.finish))
      {
        var tc := r.calls[i];
        var args := tc.args;
        if tc.name == "structured_output" && r.finish == "length" {
          if tc.parseError || args.response == "" {
            if tc.recovered.Some? {
              if |r.calls| == 1 {
                return Collected([], true, if tc.recovered.value != "" then tc.recovered.value else r.content);
              }
              args := Args(true, if tc.recovered.value != "" then tc.recovered.value else args.response);
            }
          }
        }
        calls := calls + [ToolCall(tc.name, args, tc.id)];
      }
      return Collected(calls, false, r.content);
    }
    var calls := [];
    for i := 0 to |r.objects|
      invariant calls + TextCalls(r.objects[i..]) == TextCalls(r.objects)
      invariant FirstFinal(r.objects[i..]) == FirstFinal(r.objects)
    {
      assert r.objects[i..][1..] == r.objects[i + 1..];
      if r.objects[i].FinalAnswer? {
        return Collected([], true, r.objects[i].response);
      }
      if r.objects[i].call.tool != "" {
        calls := calls + [r.objects[i].call];
      }
    }
    c := Collected(calls, false, r.content);
  }

  lemma {:induction false} TextCallsHaveNoId(objects: seq<TextObject>)
    requires forall o <- objects :: o.Parsed? ==> o.call.callId == ""
    ensures forall c <- TextCalls(objects) :: c.callId == ""
  {
    if objects != [] {
      TextCallsHaveNoId(objects[1..]);
    }
  }

  /** The calls to run carry the ids of the reply's calls, in order; calls from text carry none. */
  lemma CollectedIds(r: Response)
    requires GoodReply(r) && Collect(r).calls != []
    ensures r.calls != [] ==> |Collect(r).calls| == |r.calls|
    ensures forall i | 0 <= i < |Collect(r).calls| ::
              Collect(r).calls[i].callId == (if r.calls != [] then r.calls[i].id else "")
  {
    TextCallsHaveNoId(r.objects);
  }

  // ---------------------------------------------------------------------------
  // Running the calls of one reply
  // ---------------------------------------------------------------------------

  ghost predicate IsResult(call: ToolCall, m: Message) {
    exists result :: m == ToolResult(call, result)
  }

  /** One result per call, in call order. */
  ghost predicate Ran(calls: seq<ToolCall>, results: seq<Message>) {
    |results| == |calls| && forall i | 0 <= i < |calls| :: IsResult(calls[i], results[i])
  }

  predicate AllSpawn(calls: seq<ToolCall>) {
    |calls| >= 2 && forall c <- calls :: c.tool == "spawn_subagent"
  }

  predicate AllReadOnly(readOnly: set<string>, calls: seq<ToolCall>) {
    |calls| >= 2 && forall c <- calls :: c.tool in readOnly
  }

  predicate Concurrent(readOnly: set<string>, calls: seq<ToolCall>) {
    AllSpawn(calls) || AllReadOnly(readOnly, calls)
  }

  lemma ResultOf(call: ToolCall, result: string)
    ensures IsResult(call, ToolResult(call, result))
  {
  }

  function Below(n: nat): (indices: set<nat>)
    ensures forall i: nat :: i in indices <==> i < n
  {
    if n == 0 then {} else Below(n - 1) + {n - 1}
  }

  /** What the calls of a turn give when each is run, by its place. */
  type Tools = nat -> string

  function Results(calls: seq<ToolCall>, tools: Tools): seq<Message> {
    seq(|calls|, i requires 0 <= i < |calls| => ToolResult(calls[i], tools(i)))
  }

  lemma ResultsRan(calls: seq<ToolCall>, tools: Tools)
    ensures Ran(calls, Results(calls, tools))
  {
    forall i | 0 <= i < |calls| ensures IsResult(calls[i], Results(calls, tools)[i]) {
      ResultOf(calls[i], tools(i));
    }
  }

  /** All calls at once, finishing in any order. */
  method RunToolCallsConcurrent(calls: seq<ToolCall>, tools: Tools) returns (results: seq<Message>)
    ensures results == Results(calls, tools)
  {
    var slots := new Message[|calls|](_ => UserMessage(""));
    var pending := Below(|calls|);
    while pending != {}
      invariant pending <= Below(|calls|)
      invariant forall i: nat | i < |calls| && i !in pending :: slots[i] == ToolResult(calls[i], tools(i))
    {
      var i :| i in pending;
      slots[i] := ToolResult(calls[i], tools(i));
      pending := pending - {i};
    }
    results := slots[..];
  }

  /** The text a terminal call leaves as the answer. */
  function FoldedContent(calls: seq<ToolCall>, content: string): string {
    if calls == [] then content
    else if Terminal(calls[0]) then
      if calls[0].args.response != "" then calls[0].args.response else content
    else FoldedContent(calls[1..], content)
  }

  /** One call at a time, up to a terminal one, whose text becomes the answer. */
  method RunToolCallsSerial(calls: seq<ToolCall>, tools: Tools, content: string)
    returns (results: seq<Message>, finished: bool, folded: string)
    ensures finished <==> ContainsTerminalFinal(calls)
    ensures |results| <= |calls| && results == Results(calls[..|results|], tools)
    ensures finished ==> |results| < |calls| && Terminal(calls[|results|])
    ensures !finished ==> |results| == |calls|
    ensures !ContainsTerminalFinal(calls[..|results|])
    ensures folded == FoldedContent(calls, content)
  {
    results := [];
    for i := 0 to |calls|
      invariant |results| == i && results == Results(calls[..i], tools)
      invariant !ContainsTerminalFinal(calls[..i])
      invariant FoldedContent(calls[i..], content) == FoldedContent(calls, content)
    {
      var call := calls[i];
      assert calls[i..][0] == call && calls[i..][1..] == calls[i + 1..];
      if Terminal(call) {
        return results, true, if call.args.response != "" then call.args.response else content;
      }
      results := results + [ToolResult(call, tools(i))];
      assert calls[..i + 1] == calls[..i] + [call];
    }
    assert calls[..|calls|] == calls;
    return results, false, content;
  }

  /** The fold of a terminal call that the serial runner never reached. */
  method FoldTerminalFinal(calls: seq<ToolCall>, content: string) returns (folded: string)
    ensures folded == FoldedContent(calls, content)
  {
    for i := 0 to |calls|
      invariant FoldedContent(calls[i..], content) == FoldedContent(calls, content)
    {
      assert calls[i..][0] == calls[i] && calls[i..][1..] == calls[i + 1..];
      if calls[i].tool != "structured_output" {
        continue;
      }
      if !calls[i].args.final {
        continue;
      }
      return if calls[i].args.response != "" then calls[i].args.response else content;
    }
    folded := content;
  }

  // ---------------------------------------------------------------------------
  // Answering every call of the last reply
  // ---------------------------------------------------------------------------

  /** A balanced transcript and then the reply, its calls still unanswered. */
  ghost predicate AfterReply(ms: seq<Message>, r: Response) {
    ms != [] && ms[|ms| - 1] == AssistantMessage(r) && Balanced(ms[..|ms| - 1])
  }

  /** A transcript that ends in a reply; if all has been good so far, it is balanced before the
      reply, whose ids are good. */
  ghost predicate Standing(ms: seq<Message>, r: Response, good: bool) {
    ms != [] && ms[|ms| - 1] == AssistantMessage(r) && (good ==> Balanced(ms[..|ms| - 1]) && GoodReply(r))
  }

  lemma StandingIsAfterReply(ms: seq<Message>, r: Response, good: bool)
    requires Standing(ms, r, good)
    ensures ms != [] && (good ==> AfterReply(ms, r) && GoodReply(r))
  {
  }

  lemma SplitReply(ms: seq<Message>, r: Response)
    requires AfterReply(ms, r)
    ensures ms == ms[..|ms| - 1] + [AssistantMessage(r)]
  {
  }

  /** Leaving right after a reply keeps the transcript balanced just when it calls no tool. */
  lemma LeftAfterReply(ms: seq<Message>, r: Response)
    requires AfterReply(ms, r)
    ensures Balanced(ms) <==> r.calls == []
  {
    SplitReply(ms, r);
    ScanConcat(SETTLED, ms[..|ms| - 1], [AssistantMessage(r)]);
    if r.calls != [] {
      assert r.calls[0].id in IdSet(r.calls);
    }
  }

  /** The results of the calls a reply makes are what its turn owes. */
  lemma ResultsSettle(ms: seq<Message>, r: Response, results: seq<Message>)
    requires AfterReply(ms, r) && GoodReply(r) && Collect(r).calls != [] && Ran(Collect(r).calls, results)
    ensures Balanced(ms + results)
  {
    CollectedIds(r);
    var calls := Collect(r).calls;
    forall i | 0 <= i < |calls| ensures calls[i].callId == "" ==> results[i].role == User && results[i].toolCalls == []
      ensures calls[i].callId != "" ==> results[i].role == Tool && results[i].toolCallId == calls[i].callId
    {
      assert IsResult(calls[i], results[i]);
    }
    if r.calls != [] {
      NonEmptyIds(r.calls);
      SplitReply(ms, r);
      TurnSettles(ms[..|ms| - 1], AssistantMessage(r), results);
    } else {
      LeftAfterReply(ms, r);
      BalancedThenPlain(ms, results);
    }
  }

  /** One call from text that carries an id, and its result unbalances the transcript. */
  lemma IdInTextUnbalances()
    ensures var call := ToolCall("read", Args(false, ""), "7");
            var r := Response("", "", [], "stop", [Parsed(call)], false);
            var ms := [UserMessage("hello"), AssistantMessage(r)];
            && AfterReply(ms, r) && Collect(r).calls == [call]
            && Balanced(ms) && !Balanced(ms + [ToolResult(call, "done")])
  {
    var call := ToolCall("read", Args(false, ""), "7");
    var r := Response("", "", [], "stop", [Parsed(call)], false);
    var user, reply, result := UserMessage("hello"), AssistantMessage(r), ToolResult(call, "done");
    var ms := [user, reply];
    assert ms[..1] == [user];
    PlainStaysSettled([user]);
    PlainStaysSettled(ms);
    ScanConcat(SETTLED, ms, [result]);
    IsOnlyResult(call);
    IdsInTextUnbalance([call], [result]);
    assert TextCalls([Parsed(call)]) == [call] + TextCalls([]);
    assert [Parsed(call)][1..] == [];
  }

  lemma IsOnlyResult(call: ToolCall)
    ensures Ran([call], [ToolResult(call, "done")])
  {
    assert IsResult(call, ToolResult(call, "done"));
  }

  lemma ResultsAnswer(r: Response, results: seq<Message>)
    requires GoodIds(r.calls) && r.calls != [] && Collect(r).calls != [] && Ran(Collect(r).calls, results)
    ensures Answers(r.calls, results)
  {
    NonEmptyIds(r.calls);
    forall i | 0 <= i < |r.calls| ensures results[i].role == Tool && results[i].toolCallId == r.calls[i].id {
      assert IsResult(Collect(r).calls[i], results[i]);
    }
  }

  /** The results of native calls settle the turn exactly when the ids are present and distinct. */
  lemma NativeIdsAreNeeded(ms: seq<Message>, r: Response, results: seq<Message>)
    requires AfterReply(ms, r) && r.calls != [] && Collect(r).calls != [] && Ran(Collect(r).calls, results)
    ensures Balanced(ms + results) <==> GoodIds(r.calls)
  {
    hide GoodIds, Ran, Collect;
    var before, turn := ms[..|ms| - 1], AssistantMessage(r);
    SplitReply(ms, r);
    if GoodIds(r.calls) {
      ResultsAnswer(r, results);
      TurnSettles(before, turn, results);
    } else {
      ScanConcat(SETTLED, before, [turn] + results);
      assert ms + results == before + ([turn] + results) && ([turn] + results)[1..] == results;
      BrokenStays(results);
    }
  }

  /** Results of calls found in text keep a balanced transcript balanced exactly when none of
      the calls carries an id. */
  lemma {:induction false} IdsInTextUnbalance(calls: seq<ToolCall>, results: seq<Message>)
    requires Ran(calls, results)
    ensures Scan(SETTLED, results) == SETTLED <==> forall c <- calls :: c.callId == ""
  {
    if calls != [] {
      assert IsResult(calls[0], results[0]);
      forall i | 0 <= i < |calls[1..]| ensures IsResult(calls[1..][i], results[1..][i]) {
        assert IsResult(calls[i + 1], results[i + 1]);
      }
      assert calls == [calls[0]] + calls[1..];
      if calls[0].callId == "" {
        IdsInTextUnbalance(calls[1..], results[1..]);
      } else {
        BrokenStays(results[1..]);
      }
    }
  }

  lemma {:induction false} NonEmptyIds(calls: seq<NativeCall>)
    requires GoodIds(calls)
    ensures forall i | 0 <= i < |calls| :: calls[i].id != "" && calls[i].id in IdSet(calls)
    ensures forall i, j | 0 <= i < j < |calls| :: calls[i].id != calls[j].id
  {
    if calls != [] {
      NonEmptyIds(calls[1..]);
      assert forall i | 0 < i < |calls| :: calls[i] == calls[1..][i - 1];
    }
  }

  function Note(c: NativeCall, note: string): Message {
    ToolResult(ToolCall(c.name, Args(false, ""), c.id), note)
  }

  function Notes(calls: seq<NativeCall>, note: string): seq<Message> {
    seq(|calls|, i requires 0 <= i < |calls| => Note(calls[i], note))
  }

  /** The calls with an id that is not yet answered. */
  function Unanswered(calls: seq<NativeCall>, answered: set<string>): seq<NativeCall> {
    if calls == [] then []
    else if calls[0].id == "" || calls[0].id in answered then Unanswered(calls[1..], answered)
    else [calls[0]] + Unanswered(calls[1..], answered + {calls[0].id})
  }

  lemma {:induction false} UnansweredRest(calls: seq<NativeCall>, answered: set<string>, n: nat)
    requires GoodIds(calls) && n <= |calls|
    requires forall i | 0 <= i < n :: calls[i].id in answered
    requires forall i | n <= i < |calls| :: calls[i].id !in answered
    ensures Unanswered(calls, answered) == calls[n..]
  {
    if calls != [] {
      NonEmptyIds(calls);
      var rest := calls[1..];
      assert forall i | 0 <= i < |rest| :: rest[i] == calls[i + 1];
      if n > 0 {
        UnansweredRest(rest, answered, n - 1);
      } else {
        UnansweredRest(rest, answered + {calls[0].id}, 0);
      }
    }
  }

  function ResultIds(results: seq<Message>): set<string> {
    set m <- results | m.toolCallId != "" :: m.toolCallId
  }

  /** Appends the results there are and a note for every call left unanswered. */
  method BalanceToolCalls(sess: ModelSession, calls: seq<NativeCall>, executed: seq<Message>, note: string)
    modifies sess`transcript
    ensures sess.transcript == old(sess.transcript) +
              if calls == [] then [] else executed + Notes(Unanswered(calls, ResultIds(executed)), note)
  {
    if |calls| == 0 {
      assert sess.transcript + [] == sess.transcript;
      return;
    }
    var answered: set<string> := {};
    for i := 0 to |executed|
      invariant answered == ResultIds(executed[..i])
    {
      if executed[i].toolCallId != "" {
        answered := answered + {executed[i].toolCallId};
      }
      assert executed[..i + 1] == executed[..i] + [executed[i]];
    }
    assert executed[..|executed|] == executed;
    var results := executed;
    ghost var owed := Unanswered(calls, ResultIds(executed));
    for i := 0 to |calls|
      invariant results + Notes(Unanswered(calls[i..], answered), note) == executed + Notes(owed, note)
    {
      var c := calls[i];
      assert calls[i..][0] == c && calls[i..][1..] == calls[i + 1..];
      if c.id == "" || c.id in answered {
        continue;
      }
      ghost var rest := Unanswered(calls[i + 1..], answered + {c.id});
      assert Notes([c] + rest, note) == [Note(c, note)] + Notes(rest, note);
      results := results + [Note(c, note)];
      answered := answered + {c.id};
    }
    assert results == executed + Notes(owed, note);
    if |results| > 0 {
      sess.AppendToolResults(results);
    } else {
      assert sess.transcript + [] == sess.transcript;
    }
  }

  /** After results for the first calls of a reply, the others are the unanswered ones. */
  lemma FirstAreAnswered(r: Response, executed: seq<Message>)
    requires GoodReply(r) && |executed| <= |r.calls|
    requires forall i | 0 <= i < |executed| :: executed[i].role == Tool && executed[i].toolCallId == r.calls[i].id
    ensures Unanswered(r.calls, ResultIds(executed)) == r.calls[|executed|..]
  {
    var n, ids := |executed|, ResultIds(executed);
    NonEmptyIds(r.calls);
    forall i | 0 <= i < |r.calls|
      ensures r.calls[i].id in ids <==> i < n
    {
      if i < n {
        assert executed[i] in executed;
      }
    }
    UnansweredRest(r.calls, ids, n);
  }

  /** Results for the first calls of a reply and notes for the others balance its turn. */
  lemma NotesSettle(ms: seq<Message>, r: Response, executed: seq<Message>, note: string)
    requires AfterReply(ms, r) && GoodReply(r) && |executed| <= |r.calls|
    requires forall i | 0 <= i < |executed| :: executed[i].role == Tool && executed[i].toolCallId == r.calls[i].id
    ensures Balanced(ms + (executed + Notes(r.calls[|executed|..], note)))
  {
    NonEmptyIds(r.calls);
    SplitReply(ms, r);
    var results := executed + Notes(r.calls[|executed|..], note);
    assert Answers(r.calls, results);
    TurnSettles(ms[..|ms| - 1], AssistantMessage(r), results);
  }

  // ---------------------------------------------------------------------------
  // The protocol: what the loop does with a reply
  // ---------------------------------------------------------------------------

  datatype Decision =
    | Reissue | Continue | Raise(tokens: nat) | Nudge | RunTools   // and ask again
    | Accept | Fold | GiveUp                                       // and stop

  predicate AsksAgain(d: Decision) {
    !d.Accept? && !d.Fold? && !d.GiveUp?
  }

  /** A reply and what became of it. */
  datatype Turn = Turn(reply: Response, decision: Decision)

  /** The step cap (none when not positive), the configured and the highest output budget
      (unknown when not positive), the tools that only read, whether this is the root agent,
      and whether it takes up notes of the user between turns. */
  datatype Settings = Settings(maxSteps: int, configured: int, ceiling: int, readOnly: set<string>, root: bool, inject: bool)

  /** Tool rounds so far. */
  function Rounds(log: seq<Turn>): nat {
    if log == [] then 0 else Rounds(log[..|log| - 1]) + if log[|log| - 1].decision.RunTools? then 1 else 0
  }

  /** Nudges since the last tool round: requests to go on, or to issue a cut-off call again. */
  function Nudges(log: seq<Turn>): nat {
    if log == [] || log[|log| - 1].decision.RunTools? then 0
    else
      var d := log[|log| - 1].decision;
      Nudges(log[..|log| - 1]) + if d.Nudge? || d.Reissue? then 1 else 0
  }

  /** Truncation retries since the last tool round. */
  function Retries(log: seq<Turn>): nat {
    if log == [] || log[|log| - 1].decision.RunTools? then 0
    else
      var d := log[|log| - 1].decision;
      Retries(log[..|log| - 1]) + if d.Continue? || d.Raise? then 1 else 0
  }

  /** How often the output budget was raised since the last tool round. */
  function Raises(log: seq<Turn>): nat {
    if log == [] || log[|log| - 1].decision.RunTools? then 0
    else Raises(log[..|log| - 1]) + if log[|log| - 1].decision.Raise? then 1 else 0
  }

  /** The raised output budget in force, or 0. */
  function Raised(log: seq<Turn>): nat {
    if log == [] || log[|log| - 1].decision.RunTools? then 0
    else if log[|log| - 1].decision.Raise? then log[|log| - 1].decision.tokens
    else Raised(log[..|log| - 1])
  }

  function BaseBudget(s: Settings): nat {
    if s.configured > 0 then s.configured else DEFAULT_MAX_TOKENS
  }

  method RaiseBudget(s: Settings, current: nat) returns (next: Option<nat>)
    ensures next == NextBudget(s, current)
    ensures next.None? <==> 0 < s.ceiling <= (if current > 0 then current else BaseBudget(s))
    ensures next.Some? && s.ceiling > 0 ==> next.value <= s.ceiling
    ensures next.Some? ==> (if current > 0 then current else BaseBudget(s)) < next.value
  {
    var base: int := current;
    if base <= 0 {
      base := s.configured;
    }
    if base <= 0 {
      base := DEFAULT_MAX_TOKENS;
    }
    if s.ceiling > 0 && base >= s.ceiling {
      return None;
    }
    var raised := base * BUDGET_MULTIPLIER;
    if s.ceiling > 0 && raised > s.ceiling {
      raised := s.ceiling;
    }
    if raised <= base {
      return None;
    }
    return Some(raised);
  }

  function Clamp(ceiling: int, tokens: nat): nat {
    if 0 < ceiling < tokens then ceiling else tokens
  }

  /** Twice the budget in force, up to the ceiling. */
  function NextBudget(s: Settings, current: nat): Option<nat> {
    var base := if current > 0 then current else BaseBudget(s);
    if 0 < s.ceiling <= base then None else Some(Clamp(s.ceiling, 2 * base))
  }

  predicate Recoverable(r: Response) {
    TrimSpace(r.content) != "" || TrimSpace(r.reasoning) != ""
  }

  /** What a reply leads to, given the turns before it. */
  function Decide(s: Settings, log: seq<Turn>, r: Response): Decision {
    var c := Collect(r);
    if !c.explicitFinal && r.finish == "length" && CutOff(r) && !ContainsTerminalFinal(c.calls) && Nudges(log) < MAX_NUDGES then
      Reissue
    else if c.calls != [] then
      if !Concurrent(s.readOnly, c.calls) && ContainsTerminalFinal(c.calls) then Fold else RunTools
    else if !c.explicitFinal && IsTruncated(r.finish) then
      if Retries(log) < MAX_TRUNCATION_RETRIES && Recoverable(r) then Continue
      else if Retries(log) < MAX_TRUNCATION_RETRIES && NextBudget(s, Raised(log)).Some? then
        Raise(NextBudget(s, Raised(log)).value)
      else GiveUp
    else if !c.explicitFinal && r.preamble && Nudges(log) < MAX_NUDGES then Nudge
    else Accept
  }

  /** Every turn so far led on, and as the protocol says. */
  predicate Follows(s: Settings, log: seq<Turn>) {
    log == [] ||
    var before, turn := log[..|log| - 1], log[|log| - 1];
    Follows(s, before) && AsksAgain(turn.decision) && turn.decision == Decide(s, before, turn.reply)
  }

  /** Between tool rounds there is at most one nudge and three truncation retries, so the
      turns are bounded by the tool rounds. */
  lemma {:induction false} TurnsAreBounded(s: Settings, log: seq<Turn>)
    requires Follows(s, log)
    ensures Nudges(log) <= MAX_NUDGES && Retries(log) <= MAX_TRUNCATION_RETRIES
    ensures |log| + 1 <= 5 * Rounds(log) + 1 + Nudges(log) + Retries(log)
    ensures |log| + 1 <= 5 * (Rounds(log) + 1)
  {
    if log != [] {
      TurnsAreBounded(s, log[..|log| - 1]);
    }
  }

  function Power2(n: nat): nat {
    if n == 0 then 1 else 2 * Power2(n - 1)
  }

  /** The raised budget doubles at every raise of a stretch, and stops at the ceiling. */
  lemma {:induction false} RaisesDouble(s: Settings, log: seq<Turn>)
    requires Follows(s, log)
    ensures Raises(log) <= Retries(log)
    ensures Raises(log) == 0 <==> Raised(log) == 0
    ensures Raises(log) > 0 ==>
              var full := (if s.configured > 0 then s.configured else 4096) * Power2(Raises(log));
              Raised(log) == if 0 < s.ceiling < full then s.ceiling else full
  {
    if log != [] {
      var before := log[..|log| - 1];
      RaisesDouble(s, before);
      TurnsAreBounded(s, before);
      if log[|log| - 1].decision.Raise? {
        DoubleAgain(s, Raises(before), Raised(before));
      }
    }
  }

  lemma DoubleAgain(s: Settings, n: nat, current: nat)
    requires n == 0 <==> current == 0
    requires n > 0 ==> current == Clamp(s.ceiling, BaseBudget(s) * Power2(n))
    requires NextBudget(s, current).Some?
    ensures NextBudget(s, current).value == Clamp(s.ceiling, BaseBudget(s) * Power2(n + 1)) > 0
  {
    var b, p := BaseBudget(s), Power2(n);
    assert b * (2 * p) == 2 * (b * p);
    assert n == 0 ==> b * p == b;
  }

  /** The most recent visible text among the turns before the last, leaving out those whose
      cut-off calls were to be issued again. */
  function LastText(log: seq<Turn>): string {
    if log == [] then ""
    else
      var turn := log[|log| - 1];
      if !turn.decision.Reissue? && TrimSpace(turn.reply.content) != "" then TrimSpace(turn.reply.content)
      else LastText(log[..|log| - 1])
  }

  /** An answer without visible text falls back on the last text there was. */
  function FinalText(content: string, log: seq<Turn>): string {
    if TrimSpace(content) != "" then TrimSpace(content) else LastText(log)
  }

  /** The latest turn with visible text, whatever became of it. */
  function LatestVisible(log: seq<Turn>): (k: Option<nat>)
    ensures k.Some? ==> k.value < |log|
  {
    if log == [] then None
    else if Visible(log[|log| - 1].reply) then Some(|log| - 1)
    else LatestVisible(log[..|log| - 1])
  }

  predicate Visible(r: Response) {
    TrimSpace(r.content) != ""
  }

  lemma {:induction false} LatestVisibleIsLatest(log: seq<Turn>)
    ensures var k := LatestVisible(log);
            && (k.Some? ==> Visible(log[k.value].reply))
            && forall j | 0 <= j < |log| && Visible(log[j].reply) :: k.Some? && j <= k.value
  {
    hide Visible;
    if log != [] && !Visible(log[|log| - 1].reply) {
      LatestVisibleIsLatest(log[..|log| - 1]);
      assert forall j | 0 <= j < |log| - 1 :: log[..|log| - 1][j] == log[j];
    }
  }

  function LatestText(log: seq<Turn>): string {
    if LatestVisible(log).Some? then TrimSpace(log[LatestVisible(log).value].reply.content) else ""
  }

  /** The text kept is that of the latest visible turn, or the one kept before it where that
      turn's calls were to be issued again. */
  lemma {:induction false} LastTextIs(log: seq<Turn>)
    ensures var k := LatestVisible(log);
            LastText(log) == if k.None? then ""
                             else if log[k.value].decision.Reissue? then LastText(log[..k.value])
                             else LatestText(log)
  {
    hide TrimSpace;
    if log != [] && LatestVisible(log) != Some(|log| - 1) {
      var before := log[..|log| - 1];
      LastTextIs(before);
      if LatestVisible(before).Some? {
        assert log[..LatestVisible(before).value] == before[..LatestVisible(before).value];
      }
    }
  }

  /** An answer without visible text falls back on the latest visible text exactly when there
      is none, or its turn was not one to issue its calls again, or the text kept before that
      turn reads the same. */
  lemma FallbackIsLatestText(content: string, log: seq<Turn>)
    requires TrimSpace(content) == ""
    ensures var k := LatestVisible(log);
            FinalText(content, log) == LatestText(log) <==>
              k.None? || !log[k.value].decision.Reissue? || LastText(log[..k.value]) == TrimSpace(log[k.value].reply.content)
  {
    hide TrimSpace, LastText;
    LastTextIs(log);
  }

  /** A text next to a cut-off call, and then an empty answer: the text is not shown. */
  lemma TextBeforeReissueIsLost(s: Settings)
    ensures var cut := Response("Reading", "", [NativeCall("1", "read", "{", Args(false, ""), true, true, None)], "length", [], false);
            var empty := Response("", "", [], "stop", [], false);
            var log := [Turn(cut, Reissue)];
            && Follows(s, log) && Decide(s, log, empty) == Accept
            && LatestText(log) == "Reading" && FinalText(AnswerText(empty), log) == ""
  {
    var cut := Response("Reading", "", [NativeCall("1", "read", "{", Args(false, ""), true, true, None)], "length", [], false);
    var empty := Response("", "", [], "stop", [], false);
    var log := [Turn(cut, Reissue)];
    assert log[..0] == [];
    assert cut.calls[0].cutOff && CutOff(cut);
    assert Executables(cut.calls, cut.finish) == [ToolCall("read", Args(false, ""), "1")];
    assert FirstFinal(empty.objects) == None && TextCalls(empty.objects) == [];
    assert Follows(s, []);
    assert TrimSpace("Reading") == "Reading" && TrimSpace("") == "";
  }

  // ---------------------------------------------------------------------------
  // The loop
  // ---------------------------------------------------------------------------

  /** What the loop meets on its way: where the turn is cancelled, the agent's token budget and
      what of it is used when, what a summarizing backend answers before each request, what the
      calls of each turn give, and the notes and background results waiting after each turn
      (background results before the first one, too). */
  datatype World = World(
    cancelled: nat -> bool, budget: int, used: nat -> nat, answers: nat -> Answer,
    results: nat -> Tools, notes: nat -> string, background: nat -> seq<string>)

  /** A turn of the user: the settings and the world, the message, the model's replies and
      failures, and of the session its window and the size of its system prompt. */
  datatype Task = Task(
    settings: Settings, world: World, initialMessage: string, script: seq<Outcome>, window: int, promptTokens: nat)

  /** What a round trip yields, and whether its request went out. */
  function OutcomeOf(script: seq<Outcome>, trip: nat): Outcome {
    if trip < |script| then script[trip] else Failure(false)
  }

  predicate WentOut(o: Outcome) {
    o.Reply? || o.sent
  }

  /** A request: what there was, compacted where that is due, and what was to be sent next. It
      is made on a balanced transcript if all has been good so far. */
  ghost predicate Sends(t: Task, good: bool, answer: Answer, before: Memory, next: seq<Message>, sent: Memory) {
    && (good ==> Balanced(sent.transcript))
    && exists kept | Compacts(before, t.window, t.promptTokens, answer, kept) ::
         sent == kept.(transcript := kept.transcript + next)
  }

  /** A request and the reply to it, whose usage gives the size of the transcript. */
  function Received(sent: Memory, o: Outcome): Memory
    requires o.Reply?
  {
    Memory(sent.transcript + [AssistantMessage(o.reply)], if o.totalTokens > 0 then o.totalTokens else sent.tokens, sent.suppressed)
  }

  ghost predicate After(now: Memory, sent: Memory, o: Outcome, good: bool)
    requires o.Reply?
  {
    Standing(now.transcript, o.reply, good) && now == Received(sent, o)
  }

  /** One round trip: compact, send, and append the reply. A failure leaves what was sent, or
      what there was, compacted, when nothing was. */
  method Advance(sess: ModelSession, ghost t: Task, outcome: Outcome, answer: Answer, next: seq<Message>, maxTokens: nat, ghost good: bool)
    returns (reply: Option<Response>, ghost sent: seq<Memory>)
    requires (good ==> Balanced(sess.transcript)) && Plain(next)
    requires t.window == sess.maxContextLength && t.promptTokens == sess.promptTokens
    modifies sess`transcript, sess`tokenCount, sess`compressSuppressed, sess`requests
    ensures reply == if outcome.Reply? then Some(outcome.reply) else None
    ensures |sent| == if WentOut(outcome) then 1 else 0
    ensures sent == [] ==> Compacts(old(sess.State()), t.window, t.promptTokens, answer, sess.State())
    ensures sent == [] ==> sess.requests == old(sess.requests)
    ensures sent != [] ==> Sends(t, good, answer, old(sess.State()), next, sent[0])
    ensures sent != [] ==> sess.requests == old(sess.requests) + [Request(sent[0].transcript, maxTokens)]
    ensures sent != [] && reply.None? ==> sess.State() == sent[0]
    ensures reply.None? && good ==> Balanced(sess.transcript)
    ensures reply.Some? ==> After(sess.State(), sent[0], outcome, good && GoodReply(reply.value))
  {
    hide Compacts;
    CompactIfNeeded(sess, answer);
    if !WentOut(outcome) {
      return None, [];
    }
    ghost var kept := sess.State();
    if good {
      BalancedThenPlain(kept.transcript, next);
    }
    sess.transcript := sess.transcript + next;
    ghost var request := sess.State();
    assert Sends(t, good, answer, old(sess.State()), next, request) by {
      assert Compacts(old(sess.State()), t.window, t.promptTokens, answer, kept);
      assert request == kept.(transcript := kept.transcript + next);
    }
    sess.requests := sess.requests + [Request(sess.transcript, maxTokens)];
    if outcome.Failure? {
      return None, [request];
    }
    sess.transcript := sess.transcript + [AssistantMessage(outcome.reply)];
    assert sess.transcript[..|sess.transcript| - 1] == request.transcript;
    if outcome.totalTokens > 0 {
      sess.tokenCount := outcome.totalTokens;
    }
    return Some(outcome.reply), [request];
  }

  function UserMessages(texts: seq<string>): seq<Message> {
    seq(|texts|, i requires 0 <= i < |texts| => UserMessage(texts[i]))
  }

  /** What rides along with tool results: a note of the user, and background results. */
  function Boundary(s: Settings, note: string, background: seq<string>): seq<Message> {
    if !s.root then []
    else
      (if s.inject && note != "" then [UserMessage(NOTE_START + note + NOTE_END)] else []) + UserMessages(background)
  }

  method NextMessages(s: Settings, note: string, background: seq<string>) returns (ms: seq<Message>)
    ensures ms == Boundary(s, note, background) && Plain(ms)
  {
    ms := [];
    if s.root && s.inject {
      if note != "" {
        ms := [UserMessage(NOTE_START + note + NOTE_END)];
      }
    }
    if s.root {
      ms := ms + UserMessages(background);
    }
  }

  method RunToolCalls(readOnly: set<string>, calls: seq<ToolCall>, tools: Tools, content: string)
    returns (results: seq<Message>, finished: bool, folded: string)
    ensures finished <==> !Concurrent(readOnly, calls) && ContainsTerminalFinal(calls)
    ensures |results| <= |calls| && results == Results(calls[..|results|], tools)
    ensures !finished ==> results == Results(calls, tools)
    ensures finished ==> |results| < |calls| && Terminal(calls[|results|]) && !ContainsTerminalFinal(calls[..|results|])
    ensures finished ==> folded == FoldedContent(calls, content)
  {
    finished, folded := false, content;
    if Concurrent(readOnly, calls) {
      results := RunToolCallsConcurrent(calls, tools);
    } else {
      results, finished, folded := RunToolCallsSerial(calls, tools, content);
    }
    assert calls[..|calls|] == calls;
  }

  /** The calls of a reply answered by the results there are, and a note for each id that has
      none. */
  function Settled(r: Response, executed: seq<Message>, note: string): seq<Message> {
    if r.calls == [] then [] else executed + Notes(Unanswered(r.calls, ResultIds(executed)), note)
  }

  /** With good ids those are the calls that did not run. */
  lemma SettledIs(r: Response, executed: seq<Message>, note: string)
    requires GoodReply(r) && r.calls != []
    requires |executed| <= |Collect(r).calls| && Ran(Collect(r).calls[..|executed|], executed)
    ensures |executed| <= |r.calls| && Settled(r, executed, note) == executed + Notes(r.calls[|executed|..], note)
  {
    ExecutedAnswer(r, executed);
    FirstAreAnswered(r, executed);
  }

  /** Closes the turn of a last reply whose calls ran only up to some point. */
  method Settle(sess: ModelSession, r: Response, executed: seq<Message>, note: string, ghost good: bool)
    requires Standing(sess.transcript, r, good)
    requires |executed| <= |Collect(r).calls| && Ran(Collect(r).calls[..|executed|], executed)
    modifies sess`transcript
    ensures good ==> Balanced(sess.transcript)
    ensures sess.transcript == old(sess.transcript) + Settled(r, executed, note)
  {
    BalanceToolCalls(sess, r.calls, executed, note);
    if good {
      SettledBalances(old(sess.transcript), r, executed, note);
    }
  }

  lemma SettledBalances(ms: seq<Message>, r: Response, executed: seq<Message>, note: string)
    requires AfterReply(ms, r) && GoodReply(r)
    requires |executed| <= |Collect(r).calls| && Ran(Collect(r).calls[..|executed|], executed)
    ensures Balanced(ms + Settled(r, executed, note))
  {
    if r.calls == [] {
      assert ms + [] == ms;
      LeftAfterReply(ms, r);
    } else {
      ExecutedAnswer(r, executed);
      SettledIs(r, executed, note);
      NotesSettle(ms, r, executed, note);
    }
  }

  lemma ExecutedAnswer(r: Response, executed: seq<Message>)
    requires GoodReply(r) && r.calls != []
    requires |executed| <= |Collect(r).calls| && Ran(Collect(r).calls[..|executed|], executed)
    ensures |executed| <= |r.calls|
    ensures forall i | 0 <= i < |executed| :: executed[i].role == Tool && executed[i].toolCallId == r.calls[i].id
  {
    var calls := Collect(r).calls;
    if calls != [] {
      CollectedIds(r);
    }
    NonEmptyIds(r.calls);
    forall i | 0 <= i < |executed|
      ensures executed[i].role == Tool && executed[i].toolCallId == r.calls[i].id
    {
      assert IsResult(calls[..|executed|][i], executed[i]);
    }
  }

  /** A notice, and below it the visible part of what the model had said. */
  function Notice(note: string, heading: string, content: string): string {
    if TrimSpace(content) != "" then note + heading + TrimSpace(content) else note
  }

  function TruncationNotice(content: string): string {
    Notice(TRUNCATED_MARKER + TRUNCATED_TEXT + TRUNCATED_END, PARTIAL_OUTPUT, content)
  }

  function StepLimitNotice(maxSteps: nat, content: string): string {
    Notice(STEP_LIMIT_MARKER + (STEP_LIMIT_TEXT + Decimal(maxSteps) + STEP_LIMIT_TEXT2) + STEP_LIMIT_END, PARTIAL_PROGRESS, content)
  }

  function BudgetNotice(used: nat, budget: nat, content: string): string {
    Notice(BUDGET_MARKER + (BUDGET_TEXT + Decimal(used) + "/" + Decimal(budget)) + BUDGET_END, PARTIAL_PROGRESS, content)
  }

  /** Leaves the notice on the reply that could not be completed. */
  method StopForTruncation(sess: ModelSession, r: Response, ghost good: bool)
    requires Standing(sess.transcript, r, good) && r.calls == []
    modifies sess`transcript
    ensures good ==> Balanced(sess.transcript)
    ensures sess.transcript == old(sess.transcript)[..|old(sess.transcript)| - 1] + [AssistantMessage(r).(content := TruncationNotice(r.content))]
  {
    hide TruncationNotice;
    var last := |sess.transcript| - 1;
    assert LastAssistant(sess.transcript, last);
    sess.FoldLastAssistantContent(TruncationNotice(r.content));
    assert sess.transcript[..last] == old(sess.transcript)[..last];
    if good {
      LeftAfterReply(sess.transcript, r.(content := TruncationNotice(r.content)));
    }
  }

  /** How the loop ends: with an answer, the answer of a terminal call, or out of output
      tokens; at the step cap with an answer, with calls not run, or with plain text; over
      its token budget, stopped, or with a failed round trip. */
  datatype Exit = Answered | Folded | OutOfOutput | CapAnswered | CapInterrupted | CapText | OverBudget | Stopped | Failed

  predicate Stops(d: Decision) {
    d.Accept? || d.Fold? || d.GiveUp?
  }

  /** How the loop ends on a decision that stops it. */
  function ExitOf(d: Decision): Exit
    requires Stops(d)
  {
    match d
    case Accept => Answered
    case Fold => Folded
    case GiveUp => OutOfOutput
  }

  predicate AtCap(e: Exit) {
    e.CapAnswered? || e.CapInterrupted? || e.CapText?
  }

  /** How a reply ends a loop that has no step left. */
  function Landing(r: Response): (exit: Exit)
    ensures AtCap(exit)
  {
    if Collect(r).explicitFinal || ContainsTerminalFinal(Collect(r).calls) then CapAnswered
    else if Collect(r).calls != [] then CapInterrupted
    else CapText
  }

  /** The answer text of a last reply, its terminal call folded in. */
  function AnswerText(r: Response): string {
    FoldedContent(Collect(r).calls, Collect(r).content)
  }

  /** What a turn that leads on adds after the reply: a note per call to issue again, or the
      results of the calls. */
  function Added(tools: Tools, turn: Turn): seq<Message> {
    match turn.decision
    case Reissue => Notes(turn.reply.calls, REISSUE_NOTE)
    case RunTools => Results(Collect(turn.reply).calls, tools)
    case _ => []
  }

  /** What is sent along after turn k: a note of the loop's own; with tool results, in the root
      agent only, a note of the user and background results. */
  function Brought(s: Settings, w: World, k: nat, d: Decision): seq<Message> {
    match d
    case Nudge => [UserMessage(CONTINUE_NOTE)]
    case Continue => [UserMessage(TRUNCATION_NOTE)]
    case Raise(_) => [UserMessage(TRUNCATION_NOTE)]
    case RunTools => Boundary(s, w.notes(k), w.background(k + 1))
    case _ => []
  }

  lemma BroughtIsPlain(s: Settings, w: World, k: nat, d: Decision)
    ensures Plain(Brought(s, w, k, d))
  {
    hide CONTINUE_NOTE, TRUNCATION_NOTE, NOTE_START, NOTE_END;
  }

  /** What becomes of the transcript that ends in the last reply, by how the loop ends. */
  ghost predicate Closes(tools: Tools, r: Response, exit: Exit, before: seq<Message>, now: seq<Message>)
    requires before != []
  {
    match exit
    case Answered => now == before + Settled(r, [], FINAL_NOTE)
    case CapAnswered => now == before + Settled(r, [], FINAL_NOTE)
    case CapInterrupted => now == before + Settled(r, [], STEP_LIMIT_NOTE)
    case Folded => exists executed | RanToTerminal(r, tools, executed) :: now == before + Settled(r, executed, FINAL_NOTE)
    case OutOfOutput => now == before[..|before| - 1] + [AssistantMessage(r).(content := TruncationNotice(r.content))]
    case _ => now == before
  }

  /** Results for exactly the calls before the first terminal one. */
  ghost predicate RanToTerminal(r: Response, tools: Tools, executed: seq<Message>) {
    var calls, n := Collect(r).calls, |executed|;
    && n < |calls| && Terminal(calls[n]) && !ContainsTerminalFinal(calls[..n]) && executed == Results(calls[..n], tools)
  }

  /** The text of a reply that lands on the step cap. */
  function CapContent(s: Settings, r: Response): string
    requires s.maxSteps > 0
  {
    if Landing(r).CapInterrupted? then StepLimitNotice(s.maxSteps, r.content) else AnswerText(r)
  }

  method FinishAtCap(sess: ModelSession, s: Settings, ghost tools: Tools, r: Response, ghost good: bool) returns (exit: Exit, content: string)
    requires Standing(sess.transcript, r, good) && s.maxSteps > 0
    modifies sess`transcript
    ensures (good ==> Balanced(sess.transcript)) && Closes(tools, r, exit, old(sess.transcript), sess.transcript)
    ensures exit == Landing(r) && content == CapContent(s, r)
  {
    hide Balanced, Standing, AfterReply, GoodReply, Collect, FINAL_NOTE, STEP_LIMIT_NOTE, Settled, StepLimitNotice;
    StandingIsAfterReply(sess.transcript, r, good);
    var c := CollectToolCalls(r);
    content := c.content;
    assert Ran(c.calls[..0], []);
    if c.explicitFinal || ContainsTerminalFinal(c.calls) {
      content := FoldTerminalFinal(c.calls, content);
      Settle(sess, r, [], FINAL_NOTE, good);
      exit := CapAnswered;
    } else if |c.calls| > 0 {
      CallsKeepContent(r);
      content := StepLimitNotice(s.maxSteps, content);
      Settle(sess, r, [], STEP_LIMIT_NOTE, good);
      exit := CapInterrupted;
    } else {
      NoCalls(r);
      if good {
        LeftAfterReply(sess.transcript, r);
      }
      exit := CapText;
    }
  }

  lemma CallsKeepContent(r: Response)
    requires Collect(r).calls != []
    ensures Collect(r).content == r.content && !Collect(r).explicitFinal
  {
  }

  /** What a turn that led on leaves before the next request. */
  function AfterTurn(t: Task, k: nat, sent: Memory, turn: Turn): Memory {
    var o := OutcomeOf(t.script, k);
    var size := if o.Reply? && o.totalTokens > 0 then o.totalTokens else sent.tokens;
    Memory(sent.transcript + [AssistantMessage(turn.reply)] + Added(t.world.results(k), turn), size, sent.suppressed)
  }

  /** One turn of the conversation: after request k came the reply, what the turn added, and
      then, compacted where that is due, what was sent along. */
  ghost predicate LeadsTo(t: Task, good: bool, k: nat, sent: Memory, turn: Turn, next: Memory) {
    Sends(t, good, t.world.answers(k + 1), AfterTurn(t, k, sent, turn), Brought(t.settings, t.world, k, turn.decision), next)
  }

  /** The user's message; in the root agent the results of background agents follow it. */
  function Opening(t: Task): seq<Message> {
    [UserMessage(t.initialMessage)] + if t.settings.root then UserMessages(t.world.background(0)) else []
  }

  /** The transcript was balanced at first and the first n replies had good ids. */
  ghost predicate GoodUpTo(start: Memory, log: seq<Turn>, n: nat) {
    Balanced(start.transcript) && forall k: nat | k < n && k < |log| :: GoodReply(log[k].reply)
  }

  /** The requests: one at first and one for every turn that led on, of which the last may not
      have gone out; each on a balanced transcript if all was good before. */
  ghost predicate Conversation(t: Task, start: Memory, sent: seq<Memory>, log: seq<Turn>) {
    && |log| <= |sent| <= |log| + 1
    && (sent != [] ==> Sends(t, Balanced(start.transcript), t.world.answers(0), start, Opening(t), sent[0]))
    && forall k: nat | k < |log| && k + 1 < |sent| ::
         LeadsTo(t, GoodUpTo(start, log, k + 1), k, sent[k], log[k], sent[k + 1])
  }

  /** The output budget a request asks for instead of the configured one: that of the raise it
      follows, and only there. */
  function Override(log: seq<Turn>, k: nat): nat
    requires k <= |log|
  {
    if k > 0 && log[k - 1].decision.Raise? then log[k - 1].decision.tokens else 0
  }

  function Requests(sent: seq<Memory>, log: seq<Turn>): seq<Request>
    requires |sent| <= |log| + 1
  {
    seq(|sent|, k requires 0 <= k < |sent| => Request(sent[k].transcript, Override(log, k)))
  }

  lemma OneMoreRequest(sent: seq<Memory>, log: seq<Turn>, turn: Turn, more: seq<Memory>)
    requires |sent| == |log| + 1 && |more| <= 1
    ensures Requests(sent + more, log + [turn]) ==
              Requests(sent, log) + if more == [] then [] else [Request(more[0].transcript, if turn.decision.Raise? then turn.decision.tokens else 0)]
  {
  }

  lemma OneMoreTurn(t: Task, start: Memory, sent: seq<Memory>, log: seq<Turn>, turn: Turn, more: seq<Memory>)
    requires Conversation(t, start, sent, log) && |sent| == |log| + 1
    requires more == [] || (|more| == 1 && LeadsTo(t, GoodUpTo(start, log, |log|) && GoodReply(turn.reply), |log|, sent[|log|], turn, more[0]))
    ensures Conversation(t, start, sent + more, log + [turn])
  {
    hide Sends, LeadsTo, GoodUpTo, Opening;
    var log', sent' := log + [turn], sent + more;
    GoodOnceMore(start, log, turn);
    forall k: nat | k < |log'| && k + 1 < |sent'|
      ensures LeadsTo(t, GoodUpTo(start, log', k + 1), k, sent'[k], log'[k], sent'[k + 1])
    {
      if k < |log| {
        GoodSoFar(start, log, turn, k + 1);
        assert LeadsTo(t, GoodUpTo(start, log, k + 1), k, sent[k], log[k], sent[k + 1]);
      }
    }
  }

  lemma GoodOnceMore(start: Memory, log: seq<Turn>, turn: Turn)
    ensures GoodUpTo(start, log + [turn], |log| + 1) <==> GoodUpTo(start, log, |log|) && GoodReply(turn.reply)
  {
    hide Balanced, GoodReply;
    var log' := log + [turn];
    assert log'[|log|] == turn && forall k: nat | k < |log| :: log'[k] == log[k];
  }

  lemma GoodSoFar(start: Memory, log: seq<Turn>, turn: Turn, n: nat)
    requires n <= |log|
    ensures GoodUpTo(start, log + [turn], n) <==> GoodUpTo(start, log, n)
  {
    hide Balanced, GoodReply;
    var log' := log + [turn];
    assert forall k: nat | k < |log| :: log'[k] == log[k];
  }

  lemma NoCalls(r: Response)
    requires Collect(r).calls == [] && !Collect(r).explicitFinal
    ensures r.calls == []
  {
  }

  /** The loop's running counts since the last tool round, and the text it last saw. */
  datatype Tally = Tally(nudges: nat, retries: nat, raised: nat, lastAssistant: string) {

    function Seen(content: string): Tally {
      if TrimSpace(content) != "" then this.(lastAssistant := TrimSpace(content)) else this
    }

    function Answer(content: string): string {
      if TrimSpace(content) != "" then TrimSpace(content) else lastAssistant
    }
  }

  /** The counts are those of the turns so far. */
  predicate Counts(t: Tally, log: seq<Turn>) {
    t.nudges == Nudges(log) && t.retries == Retries(log) && t.raised == Raised(log) && t.lastAssistant == LastText(log)
  }

  /** What a decision does to the counts. */
  function Counted(t: Tally, r: Response, d: Decision): Tally {
    match d
    case Reissue => t.(nudges := t.nudges + 1)
    case Nudge => t.(nudges := t.nudges + 1).Seen(r.content)
    case Continue => t.(retries := t.retries + 1).Seen(r.content)
    case Raise(n) => t.(retries := t.retries + 1, raised := n).Seen(r.content)
    case RunTools => t.(nudges := 0, retries := 0, raised := 0).Seen(r.content)
    case Fold => t.(nudges := 0, retries := 0, raised := 0).Seen(r.content)
    case GiveUp => t.Seen(r.content)
    case Accept => t
  }

  lemma CountsOn(t: Tally, log: seq<Turn>, r: Response, d: Decision)
    requires Counts(t, log) && AsksAgain(d)
    ensures Counts(Counted(t, r, d), log + [Turn(r, d)])
  {
    hide Nudges, Retries, Raised, LastText, TrimSpace;
    NudgesOn(log, Turn(r, d));
    RaisedOn(log, Turn(r, d));
    LastTextOn(log, Turn(r, d));
  }

  lemma NudgesOn(log: seq<Turn>, turn: Turn)
    ensures Nudges(log + [turn]) ==
            if turn.decision.RunTools? then 0 else Nudges(log) + if turn.decision.Nudge? || turn.decision.Reissue? then 1 else 0
    ensures Retries(log + [turn]) ==
            if turn.decision.RunTools? then 0 else Retries(log) + if turn.decision.Continue? || turn.decision.Raise? then 1 else 0
  {
    assert (log + [turn])[..|log|] == log;
  }

  lemma RaisedOn(log: seq<Turn>, turn: Turn)
    ensures Raised(log + [turn]) ==
            if turn.decision.RunTools? then 0 else if turn.decision.Raise? then turn.decision.tokens else Raised(log)
  {
    assert (log + [turn])[..|log|] == log;
  }

  lemma LastTextOn(log: seq<Turn>, turn: Turn)
    ensures LastText(log + [turn]) ==
            if !turn.decision.Reissue? && TrimSpace(turn.reply.content) != "" then TrimSpace(turn.reply.content) else LastText(log)
  {
    hide TrimSpace;
    assert (log + [turn])[..|log|] == log;
  }

  /** The text of a reply that ends the loop. */
  function EndContent(r: Response, d: Decision): string {
    if d.GiveUp? then TruncationNotice(r.content) else AnswerText(r)
  }

  /** A reply without calls: asked to go on, or taken as the answer. */
  method ActOnText(sess: ModelSession, s: Settings, ghost w: World, r: Response, c: Collected, t: Tally, ghost log: seq<Turn>, ghost good: bool)
    returns (decision: Decision, next: seq<Message>, t': Tally, content: string)
    requires Standing(sess.transcript, r, good) && c == Collect(r) && c.calls == []
    requires Counts(t, log) && Reissue != Decide(s, log, r)
    modifies sess`transcript
    ensures decision == Decide(s, log, r) && (good ==> Balanced(sess.transcript))
    ensures t' == Counted(t, r, decision) && !decision.RunTools? && !decision.Reissue? && !decision.Fold?
    ensures AsksAgain(decision) ==>
              && next == Brought(s, w, |log|, decision) && Added(w.results(|log|), Turn(r, decision)) == []
              && sess.transcript == old(sess.transcript)
    ensures Stops(decision) ==>
              && Closes(w.results(|log|), r, ExitOf(decision), old(sess.transcript), sess.transcript)
              && content == EndContent(r, decision)
  {
    hide Balanced, Standing, AfterReply, GoodReply, Collect, TrimSpace, NextBudget, Nudges, Retries, Raised, TruncationNotice, TRUNCATION_NOTE, CONTINUE_NOTE, FINAL_NOTE;
    hide Settled;
    StandingIsAfterReply(sess.transcript, r, good);
    t', next, content := t, [], "";
    if !c.explicitFinal && IsTruncated(r.finish) {
      NoCalls(r);
      if good {
        LeftAfterReply(sess.transcript, r);
      }
      t' := t'.Seen(r.content);
      next := [UserMessage(TRUNCATION_NOTE)];
      if t.retries < MAX_TRUNCATION_RETRIES {
        if Recoverable(r) {
          return Continue, next, t'.(retries := t.retries + 1), "";
        }
        var more := RaiseBudget(s, t.raised);
        if more.Some? {
          return Raise(more.value), next, t'.(retries := t.retries + 1, raised := more.value), "";
        }
      }
      StopForTruncation(sess, r, good);
      return GiveUp, [], t', TruncationNotice(r.content);
    }
    if !c.explicitFinal && r.preamble && t.nudges < MAX_NUDGES {
      NoCalls(r);
      if good {
        LeftAfterReply(sess.transcript, r);
      }
      return Nudge, [UserMessage(CONTINUE_NOTE)], t'.(nudges := t.nudges + 1).Seen(r.content), "";
    }
    Settle(sess, r, [], FINAL_NOTE, good);
    return Accept, [], t, c.content;
  }

  /** A reply with calls: run them, and ask for more unless one was terminal. */
  method ActOnCalls(sess: ModelSession, s: Settings, w: World, step: nat, r: Response, c: Collected, t: Tally, ghost log: seq<Turn>, ghost good: bool)
    returns (decision: Decision, next: seq<Message>, t': Tally, content: string)
    requires Standing(sess.transcript, r, good) && c == Collect(r) && c.calls != []
    requires Reissue != Decide(s, log, r)
    modifies sess`transcript
    ensures decision == Decide(s, log, r) && (good ==> Balanced(sess.transcript))
    ensures (decision.RunTools? || decision.Fold?) && t' == Counted(t, r, decision)
    ensures decision.RunTools? ==>
              && next == Brought(s, w, step, decision)
              && sess.transcript == old(sess.transcript) + Added(w.results(step), Turn(r, decision))
    ensures decision.Fold? ==> Closes(w.results(step), r, Folded, old(sess.transcript), sess.transcript) && content == AnswerText(r)
  {
    hide Balanced, Standing, AfterReply, GoodReply, Collect, TrimSpace, FINAL_NOTE, Concurrent, ContainsTerminalFinal, Results, Nudges, Retries, Raised, Boundary;
    hide Settled;
    StandingIsAfterReply(sess.transcript, r, good);
    t', next := t.(nudges := 0, retries := 0, raised := 0).Seen(r.content), [];
    var tools := w.results(step);
    var results, finished, folded := RunToolCalls(s.readOnly, c.calls, tools, c.content);
    ResultsRan(c.calls[..|results|], tools);
    if finished {
      Settle(sess, r, results, FINAL_NOTE, good);
      assert RanToTerminal(r, tools, results);
      return Fold, [], t', folded;
    }
    if good {
      ResultsRan(c.calls, tools);
      ResultsSettle(sess.transcript, r, results);
    }
    sess.AppendToolResults(results);
    next := NextMessages(s, w.notes(step), w.background(step + 1));
    return RunTools, next, t', "";
  }

  /** What one reply leads to. */
  method Act(sess: ModelSession, s: Settings, w: World, r: Response, t: Tally, step: nat, ghost log: seq<Turn>, ghost good: bool)
    returns (decision: Decision, next: seq<Message>, t': Tally, content: string)
    requires Standing(sess.transcript, r, good) && Counts(t, log) && step == |log|
    modifies sess`transcript
    ensures decision == Decide(s, log, r) && (good ==> Balanced(sess.transcript))
    ensures t' == Counted(t, r, decision)
    ensures AsksAgain(decision) ==>
              && Plain(next) && next == Brought(s, w, step, decision)
              && sess.transcript == old(sess.transcript) + Added(w.results(step), Turn(r, decision))
    ensures Stops(decision) ==>
              && Closes(w.results(step), r, ExitOf(decision), old(sess.transcript), sess.transcript)
              && content == EndContent(r, decision)
  {
    hide Balanced, Standing, AfterReply, GoodReply, Collect, TrimSpace, REISSUE_NOTE, TRUNCATION_NOTE, CONTINUE_NOTE, TruncationNotice, Closes, Results, Boundary;
    StandingIsAfterReply(sess.transcript, r, good);
    var c := CollectToolCalls(r);
    content := "";
    if !c.explicitFinal && r.finish == "length" && CutOff(r) && !ContainsTerminalFinal(c.calls) && t.nudges < MAX_NUDGES {
      if good {
        NotesSettle(sess.transcript, r, [], REISSUE_NOTE);
        assert [] + Notes(r.calls[0..], REISSUE_NOTE) == Notes(r.calls, REISSUE_NOTE);
      }
      sess.AppendToolResults(Notes(r.calls, REISSUE_NOTE));
      return Reissue, [], t.(nudges := t.nudges + 1), "";
    }
    if |c.calls| == 0 {
      decision, next, t', content := ActOnText(sess, s, w, r, c, t, log, good);
    } else {
      decision, next, t', content := ActOnCalls(sess, s, w, step, r, c, t, log, good);
    }
    BroughtIsPlain(s, w, step, decision);
  }

  // ---------------------------------------------------------------------------
  // The whole turn of a user message
  // ---------------------------------------------------------------------------

  predicate OverBudget(w: World, k: nat) {
    w.budget > 0 && w.used(k) >= w.budget
  }

  /** The turns act on the model's replies, in order, within the step cap, and none when
      cancelled or over budget. */
  predicate Unhindered(t: Task, log: seq<Turn>) {
    && |log| <= |t.script| && (t.settings.maxSteps > 0 ==> |log| <= t.settings.maxSteps)
    && forall k: nat | k < |log| ::
         t.script[k].Reply? && t.script[k].reply == log[k].reply && !t.world.cancelled(k) && !OverBudget(t.world, k)
  }

  /** Why the loop ends as it does, from its settings, the world, the turns so far and the
      last reply. */
  predicate EndsAs(s: Settings, w: World, log: seq<Turn>, r: Response, exit: Exit) {
    if s.maxSteps > 0 && |log| == s.maxSteps then exit == Landing(r)
    else if w.cancelled(|log|) then exit == Stopped
    else if OverBudget(w, |log|) then exit == Exit.OverBudget
    else Stops(Decide(s, log, r)) && exit == ExitOf(Decide(s, log, r))
  }

  /** What the user sees. */
  predicate ShowsAs(s: Settings, w: World, log: seq<Turn>, r: Response, exit: Exit, text: string) {
    match exit
    case Answered => text == FinalText(AnswerText(r), log)
    case Folded => text == FinalText(AnswerText(r), log + [Turn(r, Fold)])
    case OutOfOutput => text == FinalText(TruncationNotice(r.content), log + [Turn(r, GiveUp)])
    case OverBudget => w.budget > 0 && text == FinalText(BudgetNotice(w.used(|log|), w.budget, r.content), log)
    case Stopped => text == ""
    case Failed => text == ""
    case _ => s.maxSteps > 0 && text == FinalText(CapContent(s, r), log)
  }

  /** How a failed round trip leaves the session: with what was sent, or with what there was,
      compacted, when nothing was. */
  ghost predicate Fails(t: Task, start: Memory, sent: seq<Memory>, log: seq<Turn>, now: Memory) {
    var k := |log|;
    if |sent| == k + 1 then WentOut(OutcomeOf(t.script, k)) && now == sent[k]
    else
      && |sent| == k && !WentOut(OutcomeOf(t.script, k))
      && Compacts(if k == 0 then start else AfterTurn(t, k - 1, sent[k - 1], log[k - 1]), t.window, t.promptTokens, t.world.answers(k), now)
  }

  /** How the loop leaves things after its turns: with a failed round trip; or with the exit and
      the text that the last reply, the settings and the world demand, that reply closed as the
      exit has it. If the transcript was balanced at first and all ids are good it is balanced
      again, but for the calls of a last reply when cancelled or over budget. */
  ghost predicate Concludes(t: Task, start: Memory, sent: seq<Memory>, log: seq<Turn>, exit: Exit, text: string, now: Memory) {
    var k, last := |log|, OutcomeOf(t.script, |log|);
    if last.Failure? then
      && exit == Failed && text == "" && Fails(t, start, sent, log, now)
      && (GoodUpTo(start, log, k) ==> Balanced(now.transcript))
    else
      && |sent| == k + 1 && EndsAs(t.settings, t.world, log, last.reply, exit) && ShowsAs(t.settings, t.world, log, last.reply, exit, text)
      && Closes(t.world.results(k), last.reply, exit, Received(sent[k], last).transcript, now.transcript)
      && now == Received(sent[k], last).(transcript := now.transcript)
      && (GoodUpTo(start, log, k) && GoodReply(last.reply) ==>
            (Balanced(now.transcript) <==> !(exit.OverBudget? || exit.Stopped?) || last.reply.calls == []))
  }

  /** The last reply ends the loop as it must, with the text it must show, and is closed. */
  ghost predicate Finishes(s: Settings, w: World, log: seq<Turn>, r: Response, good: bool, exit: Exit, text: string,
                           before: seq<Message>, now: seq<Message>)
    requires before != []
  {
    && EndsAs(s, w, log, r, exit) && ShowsAs(s, w, log, r, exit, text)
    && Closes(w.results(|log|), r, exit, before, now)
    && (good ==> (Balanced(now) <==> !(exit.OverBudget? || exit.Stopped?) || r.calls == []))
  }

  /** The loop before it acts on a reply. */
  ghost predicate Underway(t: Task, start: Memory, sent: seq<Memory>, log: seq<Turn>, tally: Tally, r: Response, now: Memory) {
    && |log| < |t.script| && t.script[|log|].Reply? && t.script[|log|].reply == r
    && Follows(t.settings, log) && Unhindered(t, log) && Counts(tally, log)
    && |sent| == |log| + 1 && Conversation(t, start, sent, log)
    && After(now, sent[|log|], t.script[|log|], GoodUpTo(start, log, |log|) && GoodReply(r))
  }

  lemma Stands(t: Task, start: Memory, sent: seq<Memory>, log: seq<Turn>, tally: Tally, r: Response, now: Memory)
    requires Underway(t, start, sent, log, tally, r, now)
    ensures var good := GoodUpTo(start, log, |log|) && GoodReply(r);
            Standing(now.transcript, r, good) && now.transcript != [] && (good ==> AfterReply(now.transcript, r))
    ensures Counts(tally, log) && |log| < |t.script| && |sent| == |log| + 1
    ensures t.settings.maxSteps > 0 ==> |log| <= t.settings.maxSteps
  {
    hide Balanced, GoodReply, GoodUpTo, Conversation, Follows, Counts, AssistantMessage;
  }

  lemma ConcludesOnReply(t: Task, start: Memory, sent: seq<Memory>, log: seq<Turn>, tally: Tally, r: Response,
                         exit: Exit, text: string, before: Memory, now: Memory)
    requires Underway(t, start, sent, log, tally, r, before) && before.transcript != []
    requires Finishes(t.settings, t.world, log, r, GoodUpTo(start, log, |log|) && GoodReply(r), exit, text, before.transcript, now.transcript)
    requires now == before.(transcript := now.transcript)
    ensures Concludes(t, start, sent, log, exit, text, now)
    ensures Follows(t.settings, log) && Unhindered(t, log) && Conversation(t, start, sent, log)
  {
    hide Balanced, GoodUpTo, GoodReply, Closes, EndsAs, ShowsAs, Counts, Conversation, Unhindered, Follows;
  }

  lemma ConcludesOnFailure(t: Task, start: Memory, sent: seq<Memory>, log: seq<Turn>, now: Memory)
    requires OutcomeOf(t.script, |log|).Failure? && (GoodUpTo(start, log, |log|) ==> Balanced(now.transcript))
    requires Fails(t, start, sent, log, now)
    ensures Concludes(t, start, sent, log, Failed, "", now)
  {
    hide Balanced, GoodUpTo, Fails;
  }

  /** At the step cap, cancelled or over budget the loop ends without acting on the reply. */
  method StopEarly(sess: ModelSession, s: Settings, w: World, step: nat, r: Response, t: Tally, ghost log: seq<Turn>, ghost good: bool)
    returns (ended: bool, exit: Exit, text: string)
    requires Standing(sess.transcript, r, good) && Counts(t, log) && step == |log|
    requires s.maxSteps > 0 ==> step <= s.maxSteps
    modifies sess`transcript
    ensures ended ==> old(sess.transcript) != [] && Finishes(s, w, log, r, good, exit, text, old(sess.transcript), sess.transcript)
    ensures !ended ==> sess.transcript == old(sess.transcript) && Free(s, w, step)
  {
    hide Balanced, Standing, AfterReply, GoodReply, TrimSpace, Decide, Landing, FinalText, Counts, Closes, CapContent, BudgetNotice, ShowsAs;
    StandingIsAfterReply(sess.transcript, r, good);
    exit, text := Stopped, "";
    if s.maxSteps > 0 && step >= s.maxSteps {
      var content;
      exit, content := FinishAtCap(sess, s, w.results(step), r, good);
      CapShows(s, w, log, r, t, content);
      return true, exit, t.Answer(content);
    }
    if good {
      LeftAfterReply(sess.transcript, r);
    }
    if w.cancelled(step) {
      StaysPut(w.results(step), r, Stopped, sess.transcript);
      StoppedShows(s, w, log, r);
      return true, Stopped, "";
    }
    if w.budget > 0 && w.used(step) >= w.budget {
      StaysPut(w.results(step), r, Exit.OverBudget, sess.transcript);
      BudgetShows(s, w, log, r, t);
      return true, Exit.OverBudget, t.Answer(BudgetNotice(w.used(step), w.budget, r.content));
    }
    return false, Stopped, "";
  }

  /** Nothing keeps the loop from acting on its next reply. */
  predicate Free(s: Settings, w: World, step: nat) {
    !(s.maxSteps > 0 && step >= s.maxSteps) && !w.cancelled(step) && !OverBudget(w, step)
  }

  /** Acting on a reply ends the loop. */
  lemma ActEnds(s: Settings, w: World, log: seq<Turn>, r: Response, good: bool, t: Tally, d: Decision, before: seq<Message>, now: seq<Message>)
    requires Free(s, w, |log|) && d == Decide(s, log, r) && Stops(d) && Counts(t, log) && before != []
    requires Closes(w.results(|log|), r, ExitOf(d), before, now) && (good ==> Balanced(now))
    ensures Finishes(s, w, log, r, good, ExitOf(d), Counted(t, r, d).Answer(EndContent(r, d)), before, now)
  {
    hide Balanced, Decide, Closes, Counts, Counted, EndContent, ShowsAs, TrimSpace;
    StopShows(s, w, log, r, t, d);
  }

  /** Or leads on to another round trip. */
  lemma Onward(t: Task, start: Memory, sent: seq<Memory>, log: seq<Turn>, tally: Tally, r: Response, d: Decision,
               before: Memory, acted: Memory, more: seq<Memory>, now: Memory)
    requires Underway(t, start, sent, log, tally, r, before) && Free(t.settings, t.world, |log|)
    requires d == Decide(t.settings, log, r) && AsksAgain(d)
    requires acted == before.(transcript := before.transcript + Added(t.world.results(|log|), Turn(r, d)))
    requires var o, good, answer := OutcomeOf(t.script, |log| + 1), GoodUpTo(start, log, |log|) && GoodReply(r), t.world.answers(|log| + 1);
             && |more| == (if WentOut(o) then 1 else 0)
             && (more == [] ==> Compacts(acted, t.window, t.promptTokens, answer, now))
             && (more != [] ==> Sends(t, good, answer, acted, Brought(t.settings, t.world, |log|, d), more[0]))
             && (more != [] && o.Failure? ==> now == more[0])
             && (o.Failure? && good ==> Balanced(now.transcript))
             && (o.Reply? ==> After(now, more[0], o, good && GoodReply(o.reply)))
    ensures var log', sent', o := log + [Turn(r, d)], sent + more, OutcomeOf(t.script, |log| + 1);
            && Follows(t.settings, log') && Unhindered(t, log') && Conversation(t, start, sent', log') && |sent'| <= |log'| + 1
            && (o.Failure? ==> Concludes(t, start, sent', log', Failed, "", now))
            && (o.Reply? ==> Underway(t, start, sent', log', Counted(tally, r, d), o.reply, now))
  {
    hide Balanced, GoodReply, GoodUpTo, Decide, Sends, Compacts, Added, Brought, Conversation, Follows, Unhindered, Counts, Counted, LeadsTo, Fails, Concludes, Standing;
    var turn, o := Turn(r, d), OutcomeOf(t.script, |log| + 1);
    AfterTurnIs(t, log, sent[|log|], before, turn, acted);
    GoodOnceMore(start, log, turn);
    if more != [] {
      LeadsOn(t, GoodUpTo(start, log, |log|) && GoodReply(r), log, sent[|log|], turn, more[0]);
    }
    OneMoreTurn(t, start, sent, log, turn, more);
    CountsOn(tally, log, r, d);
    FollowsOn(t.settings, log, turn);
    OneMoreUnhindered(t, log, turn);
    FailsOn(t, start, sent, log, turn, more, now);
    if o.Failure? {
      ConcludesOnFailure(t, start, sent + more, log + [turn], now);
    }
  }

  /** Takes one reply: the loop ends with it, or decides to ask again. */
  method TakeReply(sess: ModelSession, s: Settings, w: World, step: nat, r: Response, t: Tally,
                   ghost task: Task, ghost start: Memory, ghost sent: seq<Memory>, ghost log: seq<Turn>)
    returns (decision: Decision, next: seq<Message>, t': Tally, exit: Exit, text: string)
    requires task.settings == s && task.world == w && step == |log|
    requires Underway(task, start, sent, log, t, r, sess.State())
    modifies sess`transcript
    ensures !AsksAgain(decision) ==>
              && Concludes(task, start, sent, log, exit, text, sess.State())
              && Follows(s, log) && Unhindered(task, log) && Conversation(task, start, sent, log)
    ensures AsksAgain(decision) ==>
              && Free(s, w, step) && decision == Decide(s, log, r) && t' == Counted(t, r, decision)
              && Plain(next) && next == Brought(s, w, step, decision)
              && sess.transcript == old(sess.transcript) + Added(w.results(step), Turn(r, decision))
              && (GoodUpTo(start, log, |log|) && GoodReply(r) ==> Balanced(sess.transcript))
  {
    hide Balanced, Standing, AfterReply, GoodReply, GoodUpTo, TrimSpace, Decide, Conversation, Plain, Counts, Counted, Unhindered, Follows, Closes,
         Added, Brought, EndContent, Concludes, Finishes, Underway, Free;
    ghost var good := GoodUpTo(start, log, |log|) && GoodReply(r);
    ghost var before := sess.State();
    Stands(task, start, sent, log, t, r, before);
    var ended;
    ended, exit, text := StopEarly(sess, s, w, step, r, t, log, good);
    if ended {
      ConcludesOnReply(task, start, sent, log, t, r, exit, text, before, sess.State());
      return Accept, [], t, exit, text;
    }
    var content;
    decision, next, t', content := Act(sess, s, w, r, t, step, log, good);
    if !AsksAgain(decision) {
      exit, text := ExitOf(decision), t'.Answer(content);
      ActEnds(s, w, log, r, good, t, decision, before.transcript, sess.transcript);
      ConcludesOnReply(task, start, sent, log, t, r, exit, text, before, sess.State());
    }
  }

  /** The loop on any transcript and any script of replies and failures: its turns are those of
      the protocol, each request continues the conversation, and it concludes as above. */
  method RunLoop(sess: ModelSession, s: Settings, w: World, initialMessage: string, script: seq<Outcome>)
    returns (exit: Exit, log: seq<Turn>, finalText: string, ghost sent: seq<Memory>)
    modifies sess`transcript, sess`tokenCount, sess`compressSuppressed, sess`requests
    ensures var t := Task(s, w, initialMessage, script, sess.maxContextLength, sess.promptTokens);
            && Follows(s, log) && Unhindered(t, log)
            && Conversation(t, old(sess.State()), sent, log)
            && Concludes(t, old(sess.State()), sent, log, exit, finalText, sess.State())
    ensures |sent| <= |log| + 1 && sess.requests == old(sess.requests) + Requests(sent, log)
  {
    hide Balanced, Standing, AfterReply, After, GoodReply, GoodUpTo, TrimSpace, Decide, Conversation, Plain, Counts, Counted, Unhindered, Follows, Closes,
         Added, Brought, Sends, Compacts, Fails, EndContent, Concludes, Requests, Finishes, Underway, Free;
    ghost var start, requests := sess.State(), sess.requests;
    ghost var task := Task(s, w, initialMessage, script, sess.maxContextLength, sess.promptTokens);
    finalText, log := "", [];
    var reply;
    reply, sent := Open(sess, task, s, w, initialMessage, script);
    if reply.None? {
      return Failed, log, "", sent;
    }
    var resp, step, t := reply.value, 0, Tally(0, 0, 0, "");
    while true
      invariant step == |log| < |script| && |sent| == |log| + 1
      invariant Underway(task, start, sent, log, t, resp, sess.State())
      invariant sess.requests == requests + Requests(sent, log)
      decreases |script| - step
    {
      ghost var before := sess.State();
      var decision, next, t';
      decision, next, t', exit, finalText := TakeReply(sess, s, w, step, resp, t, task, start, sent, log);
      if !AsksAgain(decision) {
        return;
      }
      ghost var acted, more := sess.State(), [];
      reply, more := Advance(sess, task, OutcomeOf(script, step + 1), w.answers(step + 1), next,
                             if decision.Raise? then decision.tokens else 0, GoodUpTo(start, log, |log|) && GoodReply(resp));
      Onward(task, start, sent, log, t, resp, decision, before, acted, more, sess.State());
      OneMoreRequest(sent, log, Turn(resp, decision), more);
      sent := sent + more;
      log := log + [Turn(resp, decision)];
      if reply.None? {
        return Failed, log, "", sent;
      }
      resp, step, t := reply.value, step + 1, t';
    }
  }

  /** The first request carries the user's message. */
  method Open(sess: ModelSession, ghost t: Task, s: Settings, w: World, initialMessage: string, script: seq<Outcome>)
    returns (reply: Option<Response>, ghost sent: seq<Memory>)
    requires t == Task(s, w, initialMessage, script, sess.maxContextLength, sess.promptTokens)
    modifies sess`transcript, sess`tokenCount, sess`compressSuppressed, sess`requests
    ensures |sent| <= 1 && sess.requests == old(sess.requests) + Requests(sent, [])
    ensures Follows(s, []) && Unhindered(t, []) && Conversation(t, old(sess.State()), sent, [])
    ensures reply.None? ==> Concludes(t, old(sess.State()), sent, [], Failed, "", sess.State())
    ensures reply.Some? ==>
              |script| > 0 && |sent| == 1 && Underway(t, old(sess.State()), sent, [], Tally(0, 0, 0, ""), reply.value, sess.State())
  {
    hide Balanced, Standing, GoodReply, GoodUpTo, Sends, Compacts, Counts, Follows, Unhindered;
    ghost var start := sess.State();
    var first := [UserMessage(initialMessage)];
    if s.root {
      first := first + UserMessages(w.background(0));
    } else {
      assert first == first + [];
    }
    assert first == Opening(t);
    reply, sent := Advance(sess, t, OutcomeOf(script, 0), w.answers(0), first, 0, Balanced(sess.transcript));
    NothingYet(t, start);
  }

  lemma AfterTurnIs(t: Task, log: seq<Turn>, sent: Memory, before: Memory, turn: Turn, now: Memory)
    requires OutcomeOf(t.script, |log|).Reply? && OutcomeOf(t.script, |log|).reply == turn.reply
    requires before == Received(sent, OutcomeOf(t.script, |log|))
    requires now == before.(transcript := before.transcript + Added(t.world.results(|log|), turn))
    ensures now == AfterTurn(t, |log|, sent, turn)
  {
    hide Added;
  }

  lemma LeadsOn(t: Task, good: bool, log: seq<Turn>, sent: Memory, turn: Turn, next: Memory)
    requires Sends(t, good, t.world.answers(|log| + 1), AfterTurn(t, |log|, sent, turn), Brought(t.settings, t.world, |log|, turn.decision), next)
    ensures LeadsTo(t, good, |log|, sent, turn, next)
  {
    hide Sends, AfterTurn, Brought;
  }

  lemma FailsOn(t: Task, start: Memory, sent: seq<Memory>, log: seq<Turn>, turn: Turn, more: seq<Memory>, now: Memory)
    requires |sent| == |log| + 1
    requires |more| == if WentOut(OutcomeOf(t.script, |log| + 1)) then 1 else 0
    requires OutcomeOf(t.script, |log| + 1).Failure? ==>
               if more != [] then now == more[0]
               else Compacts(AfterTurn(t, |log|, sent[|log|], turn), t.window, t.promptTokens, t.world.answers(|log| + 1), now)
    ensures OutcomeOf(t.script, |log| + 1).Failure? ==> Fails(t, start, sent + more, log + [turn], now)
  {
    hide Compacts, AfterTurn;
    var log', sent' := log + [turn], sent + more;
    assert log'[|log|] == turn && sent'[|log|] == sent[|log|];
  }

  lemma StaysPut(tools: Tools, r: Response, exit: Exit, ms: seq<Message>)
    requires exit.Stopped? || exit.OverBudget?
    requires ms != []
    ensures Closes(tools, r, exit, ms, ms)
  {
  }

  lemma NothingYet(t: Task, start: Memory)
    ensures Counts(Tally(0, 0, 0, ""), []) && Follows(t.settings, []) && Unhindered(t, [])
    ensures GoodUpTo(start, [], 0) <==> Balanced(start.transcript)
  {
  }

  lemma OneMoreUnhindered(t: Task, log: seq<Turn>, turn: Turn)
    requires Unhindered(t, log) && |log| < |t.script| && t.script[|log|].Reply? && t.script[|log|].reply == turn.reply
    requires !(t.settings.maxSteps > 0 && |log| >= t.settings.maxSteps) && !t.world.cancelled(|log|) && !OverBudget(t.world, |log|)
    ensures Unhindered(t, log + [turn])
  {
  }

  lemma TextIs(t: Tally, log: seq<Turn>, content: string)
    requires Counts(t, log)
    ensures t.Answer(content) == FinalText(content, log)
  {
  }

  lemma CapShows(s: Settings, w: World, log: seq<Turn>, r: Response, t: Tally, content: string)
    requires Counts(t, log) && s.maxSteps > 0 && content == CapContent(s, r)
    ensures ShowsAs(s, w, log, r, Landing(r), t.Answer(content))
  {
    hide CapContent, FinalText, TrimSpace;
    TextIs(t, log, content);
  }

  lemma StoppedShows(s: Settings, w: World, log: seq<Turn>, r: Response)
    ensures ShowsAs(s, w, log, r, Stopped, "")
  {
  }

  lemma BudgetShows(s: Settings, w: World, log: seq<Turn>, r: Response, t: Tally)
    requires Counts(t, log) && OverBudget(w, |log|)
    ensures ShowsAs(s, w, log, r, Exit.OverBudget, t.Answer(BudgetNotice(w.used(|log|), w.budget, r.content)))
  {
    hide BudgetNotice, FinalText, TrimSpace;
    TextIs(t, log, BudgetNotice(w.used(|log|), w.budget, r.content));
  }

  lemma StopShows(s: Settings, w: World, log: seq<Turn>, r: Response, t: Tally, d: Decision)
    requires Counts(t, log) && Stops(d)
    ensures ShowsAs(s, w, log, r, ExitOf(d), Counted(t, r, d).Answer(EndContent(r, d)))
  {
    hide TrimSpace, LastText, TruncationNotice, AnswerText, Nudges, Retries, Raised;
    LastTextOn(log, Turn(r, d));
  }

  lemma FollowsOn(s: Settings, log: seq<Turn>, turn: Turn)
    requires Follows(s, log) && AsksAgain(turn.decision) && turn.decision == Decide(s, log, turn.reply)
    ensures Follows(s, log + [turn])
  {
    hide Decide;
    assert (log + [turn])[..|log|] == log;
  }

  /** However long the model goes on, the round trips are bounded: by the step cap, and by the
      tool rounds. */
  lemma RoundTripsAreBounded(t: Task, start: Memory, sent: seq<Memory>, log: seq<Turn>)
    requires Follows(t.settings, log) && Conversation(t, start, sent, log)
    ensures t.settings.maxSteps > 0 && |log| <= t.settings.maxSteps ==> |sent| <= t.settings.maxSteps + 1
    ensures |sent| <= 5 * (Rounds(log) + 1)
  {
    hide Sends, LeadsTo, Opening;
    TurnsAreBounded(t.settings, log);
  }

  /** A truncated reply without calls is taken for an answer exactly at the step cap. */
  lemma TruncatedTextAtCap(s: Settings, w: World, log: seq<Turn>, r: Response, exit: Exit)
    requires EndsAs(s, w, log, r, exit)
    requires IsTruncated(r.finish) && Collect(r).calls == [] && !Collect(r).explicitFinal
    ensures !exit.Answered? && !exit.Folded? && !exit.CapAnswered?
    ensures exit.CapText? <==> s.maxSteps > 0 && |log| == s.maxSteps
  {
  }

  /** And there it happens: a nudged preamble, then a text cut off, with one step to take. With
      a step more it would be continued. */
  lemma TruncatedTextIsShown(w: World)
    ensures var preamble := Response("Let me see", "", [], "stop", [], true);
            var cut := Response("The answ", "", [], "length", [], false);
            var one, two := Settings(1, 0, 0, {}, true, false), Settings(2, 0, 0, {}, true, false);
            var log := [Turn(preamble, Nudge)];
            && Follows(one, log) && EndsAs(one, w, log, cut, CapText) && ShowsAs(one, w, log, cut, CapText, "The answ")
            && IsTruncated(cut.finish) && Decide(two, log, cut) == Continue
  {
    var preamble := Response("Let me see", "", [], "stop", [], true);
    var cut := Response("The answ", "", [], "length", [], false);
    var one, log := Settings(1, 0, 0, {}, true, false), [Turn(preamble, Nudge)];
    assert log[..0] == [];
    assert Follows(one, []);
    assert FirstFinal(cut.objects) == None && TextCalls(cut.objects) == [];
    assert TrimSpace("The answ") == "The answ";
    assert Retries(log) == 0;
  }

  /** As long as the ids of the replies are good, every request is made on a balanced transcript. */
  lemma RequestsAreBalanced(t: Task, start: Memory, sent: seq<Memory>, log: seq<Turn>, k: nat)
    requires Conversation(t, start, sent, log) && k < |sent| && GoodUpTo(start, log, k)
    ensures Balanced(sent[k].transcript)
  {
    if k > 0 {
      assert LeadsTo(t, GoodUpTo(start, log, k), k - 1, sent[k - 1], log[k - 1], sent[k]);
    }
  }
}
