/** Conversation transcripts, and when their tool calls are answered in place. */
module Transcript {
  import opened Wrappers

  datatype Role = System | User | Assistant | Tool

  /** The two arguments of structured_output that the loop reads; other tools ignore them. */
  datatype Args = Args(final: bool, response: string)

  /** A native tool call. What parsing makes of its argument text is given: the arguments,
      whether parsing failed, whether the stream was cut off inside it, and the partial
      response recovered from a cut-off text that still carries its final marker. */
  datatype NativeCall = NativeCall(
    id: string, name: string, arguments: string,
    args: Args, parseError: bool, cutOff: bool, recovered: Option<string>)

  /** A call to execute; calls found in plain text normally carry no id. */
  datatype ToolCall = ToolCall(tool: string, args: Args, callId: string)

  datatype Message = Message(role: Role, content: string, toolCalls: seq<NativeCall>, toolCallId: string)

  function UserMessage(content: string): Message {
    Message(User, content, [], "")
  }

  /** A result goes back under its call's id, or as plain user text when the call has none. */
  function ToolResult(call: ToolCall, result: string): Message {
    if call.callId != "" then Message(Tool, result, [], call.callId)
    else UserMessage("TOOL_RESULT[" + call.tool + "]: " + result)
  }

  function IdSet(calls: seq<NativeCall>): set<string> {
    if calls == [] then {} else {calls[0].id} + IdSet(calls[1..])
  }

  /** Call ids are present and distinct within the turn. */
  predicate GoodIds(calls: seq<NativeCall>) {
    calls == [] || (calls[0].id != "" && calls[0].id !in IdSet(calls[1..]) && GoodIds(calls[1..]))
  }

  /** The calls still to be answered, or that some rule has been broken. */
  datatype Pending = Owed(ids: set<string>) | Broken

  const SETTLED := Owed({})

  /** Until every call of an assistant turn is answered, only its answers may follow, each
      once; and answers may appear nowhere else. */
  ghost function Read(p: Pending, m: Message): Pending {
    if p.Broken? then Broken
    else if m.role == Tool then
      if m.toolCallId in p.ids then Owed(p.ids - {m.toolCallId}) else Broken
    else if p.ids != {} then Broken
    else if m.role == Assistant && m.toolCalls != [] then
      if GoodIds(m.toolCalls) then Owed(IdSet(m.toolCalls)) else Broken
    else SETTLED
  }

  ghost function Scan(p: Pending, ms: seq<Message>): Pending
    decreases |ms|
  {
    if ms == [] then p else Scan(Read(p, ms[0]), ms[1..])
  }

  ghost predicate Balanced(ms: seq<Message>) {
    Scan(SETTLED, ms) == SETTLED
  }

  lemma {:induction false} ScanConcat(p: Pending, a: seq<Message>, b: seq<Message>)
    ensures Scan(p, a + b) == Scan(Scan(p, a), b)
    decreases |a|
  {
    if a == [] {
      assert a + b == b;
    } else {
      assert (a + b)[0] == a[0] && (a + b)[1..] == a[1..] + b;
      ScanConcat(Read(p, a[0]), a[1..], b);
    }
  }

  lemma {:induction false} BrokenStays(ms: seq<Message>)
    ensures Scan(Broken, ms) == Broken
  {
    if ms != [] {
      BrokenStays(ms[1..]);
    }
  }

  /** Messages that neither call tools nor answer them. */
  predicate Plain(ms: seq<Message>) {
    forall i | 0 <= i < |ms| :: ms[i].role != Tool && ms[i].toolCalls == []
  }

  lemma {:induction false} PlainStaysSettled(ms: seq<Message>)
    requires Plain(ms)
    ensures Scan(SETTLED, ms) == SETTLED
  {
    if ms != [] {
      PlainStaysSettled(ms[1..]);
    }
  }

  lemma BalancedThenPlain(ms: seq<Message>, more: seq<Message>)
    requires Balanced(ms) && Plain(more)
    ensures Balanced(ms + more)
  {
    ScanConcat(SETTLED, ms, more);
    PlainStaysSettled(more);
  }

  /** The call ids of the first n messages. */
  function AnsweredIds(ms: seq<Message>, n: nat): set<string>
    requires n <= |ms|
  {
    if n == 0 then {} else {ms[0].toolCallId} + AnsweredIds(ms[1..], n - 1)
  }

  predicate AllTools(ms: seq<Message>) {
    forall k | 0 <= k < |ms| :: ms[k].role == Tool
  }

  /** While something is owed, the next message pays for one call. */
  lemma OneIsPaid(ids: set<string>, ms: seq<Message>)
    requires Scan(Owed(ids), ms) == SETTLED && ids != {}
    ensures ms != [] && ms[0].role == Tool && ms[0].toolCallId in ids
    ensures Scan(Owed(ids - {ms[0].toolCallId}), ms[1..]) == SETTLED
  {
    assert ms != [];
    BrokenStays(ms[1..]);
  }

  /** What is owed is paid at once: the next messages are exactly one answer per owed call. */
  lemma {:induction false} OwedIsPaid(ids: set<string>, ms: seq<Message>)
    requires Scan(Owed(ids), ms) == SETTLED
    ensures |ids| <= |ms| && AllTools(ms[..|ids|]) && AnsweredIds(ms, |ids|) == ids
    ensures Scan(SETTLED, ms[|ids|..]) == SETTLED
    decreases |ms|
  {
    hide Scan, Read;
    if ids == {} {
      assert ms[0..] == ms;
    } else {
      OneIsPaid(ids, ms);
      var id := ms[0].toolCallId;
      OwedIsPaid(ids - {id}, ms[1..]);
      assert |ids - {id}| == |ids| - 1;
      assert ms[..|ids|] == [ms[0]] + ms[1..][..|ids| - 1];
      assert ms[1..][|ids| - 1..] == ms[|ids|..];
    }
  }

  lemma {:induction false} IdSetSize(calls: seq<NativeCall>)
    requires GoodIds(calls)
    ensures |IdSet(calls)| == |calls|
  {
    if calls != [] {
      IdSetSize(calls[1..]);
    }
  }

  /** In a balanced transcript every assistant turn is followed at once by exactly one answer
      to each of its calls. */
  lemma BalancedAnswersEveryCall(ms: seq<Message>, i: nat)
    requires Balanced(ms) && i < |ms| && ms[i].role == Assistant && ms[i].toolCalls != []
    ensures var calls, after := ms[i].toolCalls, ms[i + 1..];
            && GoodIds(calls) && |calls| <= |after|
            && AllTools(after[..|calls|]) && AnsweredIds(after, |calls|) == IdSet(calls)
            && Balanced(after[|calls|..])
  {
    var before, rest := ms[..i], ms[i..];
    assert ms == before + rest;
    ScanConcat(SETTLED, before, rest);
    assert rest[0] == ms[i] && rest[1..] == ms[i + 1..];
    BrokenStays(rest[1..]);
    IdSetSize(ms[i].toolCalls);
    OwedIsPaid(IdSet(ms[i].toolCalls), ms[i + 1..]);
  }

  /** Results answering the calls in order. */
  ghost predicate Answers(calls: seq<NativeCall>, results: seq<Message>) {
    && |results| == |calls|
    && forall i | 0 <= i < |calls| :: results[i].role == Tool && results[i].toolCallId == calls[i].id
  }

  lemma {:induction false} AnswersSettle(calls: seq<NativeCall>, results: seq<Message>)
    requires GoodIds(calls) && Answers(calls, results)
    ensures Scan(Owed(IdSet(calls)), results) == SETTLED
  {
    if calls == [] {
      assert IdSet(calls) == {};
    } else {
      assert IdSet(calls) - {calls[0].id} == IdSet(calls[1..]);
      AnswersSettle(calls[1..], results[1..]);
    }
  }

  /** An assistant turn and one answer per call, on a balanced transcript. */
  lemma TurnSettles(ms: seq<Message>, turn: Message, results: seq<Message>)
    requires Balanced(ms) && turn.role == Assistant && GoodIds(turn.toolCalls) && Answers(turn.toolCalls, results)
    ensures Balanced(ms + [turn] + results)
  {
    ScanConcat(SETTLED, ms, [turn] + results);
    assert ([turn] + results)[1..] == results;
    assert ms + [turn] + results == ms + ([turn] + results);
    AnswersSettle(turn.toolCalls, results);
    if turn.toolCalls == [] {
      assert results == [];
    }
  }

  /** Where a message is no answer, the transcript before it is balanced. */
  lemma CutIsBalanced(a: seq<Message>, b: seq<Message>)
    requires Balanced(a + b) && b != [] && b[0].role != Tool
    ensures Balanced(a) && Balanced(b)
  {
    ScanConcat(SETTLED, a, b);
    BrokenStays(b[1..]);
  }

  // ---------------------------------------------------------------------------
  // Balance, said in other words
  // ---------------------------------------------------------------------------

  /** How many results a message calls for. */
  function Calls(m: Message): nat {
    if m.role == Assistant then |m.toolCalls| else 0
  }

  predicate DistinctIds(calls: seq<NativeCall>) {
    && (forall i | 0 <= i < |calls| :: calls[i].id != "")
    && forall i, j | 0 <= i < j < |calls| :: calls[i].id != calls[j].id
  }

  /** A transcript in turns: each message that calls tools, under ids that are present and distinct,
      is followed at once by one result per call, in any order; results stand nowhere else. */
  ghost predicate InTurns(ms: seq<Message>)
    decreases |ms|
  {
    ms == [] ||
    var n := Calls(ms[0]);
    && ms[0].role != Tool && n < |ms| && DistinctIds(ms[0].toolCalls[..n])
    && (forall k | 1 <= k <= n :: ms[k].role == Tool)
    && (set k | 1 <= k <= n :: ms[k].toolCallId) == (set c <- ms[0].toolCalls[..n] :: c.id)
    && InTurns(ms[n + 1..])
  }

  lemma {:induction false} IdSetIs(calls: seq<NativeCall>)
    ensures IdSet(calls) == set c <- calls :: c.id
  {
    if calls != [] {
      IdSetIs(calls[1..]);
      assert calls == [calls[0]] + calls[1..];
    }
  }

  lemma {:induction false} GoodIdsAre(calls: seq<NativeCall>)
    ensures GoodIds(calls) <==> DistinctIds(calls)
  {
    if calls != [] {
      GoodIdsAre(calls[1..]);
      IdSetIs(calls[1..]);
      var rest := calls[1..];
      assert forall i | 0 <= i < |rest| :: rest[i] == calls[i + 1];
      if GoodIds(calls) {
        forall j | 0 < j < |calls| ensures calls[0].id != calls[j].id {
          assert calls[j] in rest;
        }
      }
      if DistinctIds(calls) {
        assert DistinctIds(rest);
        forall c | c in rest ensures c.id != calls[0].id {
          var j :| 0 <= j < |rest| && rest[j] == c;
        }
      }
    }
  }

  lemma {:induction false} AnsweredAre(ms: seq<Message>, n: nat)
    requires n <= |ms|
    ensures AnsweredIds(ms, n) == set k | 0 <= k < n :: ms[k].toolCallId
  {
    if n > 0 {
      AnsweredAre(ms[1..], n - 1);
      forall x ensures x in AnsweredIds(ms, n) <==> exists k | 0 <= k < n :: ms[k].toolCallId == x {
        if x in AnsweredIds(ms[1..], n - 1) {
          var k :| 0 <= k < n - 1 && ms[1..][k].toolCallId == x;
          assert ms[k + 1].toolCallId == x;
        }
        if k :| 0 <= k < n && ms[k].toolCallId == x {
          assert k > 0 ==> ms[1..][k - 1].toolCallId == x;
        }
      }
    }
  }

  lemma {:induction false} FewAnswers(ms: seq<Message>, n: nat)
    requires n <= |ms|
    ensures |AnsweredIds(ms, n)| <= n
  {
    if n > 0 {
      FewAnswers(ms[1..], n - 1);
    }
  }

  /** As many results as calls, for the same ids, settle them in any order. */
  lemma {:induction false} PaidInAnyOrder(ids: set<string>, ms: seq<Message>)
    requires |ms| == |ids| && AllTools(ms) && AnsweredIds(ms, |ms|) == ids
    ensures Scan(Owed(ids), ms) == SETTLED
    decreases |ms|
  {
    if ms == [] {
      assert ids == {};
    } else {
      var id, rest := ms[0].toolCallId, AnsweredIds(ms[1..], |ms| - 1);
      FewAnswers(ms[1..], |ms| - 1);
      assert id in ids && ids == {id} + rest;
      assert id in rest ==> ids == rest;
      assert ids - {id} == rest;
      PaidInAnyOrder(rest, ms[1..]);
    }
  }

  lemma TurnOfBalanced(ms: seq<Message>)
    requires Balanced(ms) && ms != []
    ensures var n := Calls(ms[0]);
            && ms[0].role != Tool && n < |ms| && GoodIds(ms[0].toolCalls[..n])
            && AllTools(ms[1..][..n]) && AnsweredIds(ms[1..], n) == IdSet(ms[0].toolCalls[..n])
            && Balanced(ms[n + 1..])
  {
    var n := Calls(ms[0]);
    if n > 0 {
      assert ms[0].toolCalls[..n] == ms[0].toolCalls;
      BalancedAnswersEveryCall(ms, 0);
      assert ms[1..][n..] == ms[n + 1..];
    } else {
      BrokenStays(ms[1..]);
      assert AnsweredIds(ms[1..], 0) == IdSet([]) && ms[0].toolCalls[..0] == [];
    }
  }

  lemma TurnBalances(ms: seq<Message>)
    requires ms != [] && ms[0].role != Tool
    requires var n := Calls(ms[0]);
             && n < |ms| && GoodIds(ms[0].toolCalls[..n]) && AllTools(ms[1..][..n])
             && AnsweredIds(ms[1..][..n], n) == IdSet(ms[0].toolCalls[..n]) && Balanced(ms[n + 1..])
    ensures Balanced(ms)
  {
    var n := Calls(ms[0]);
    var results, rest := ms[1..][..n], ms[n + 1..];
    assert ms[1..] == results + rest;
    if n > 0 {
      assert ms[0].toolCalls[..n] == ms[0].toolCalls;
      IdSetSize(ms[0].toolCalls);
      PaidInAnyOrder(IdSet(ms[0].toolCalls), results);
      ScanConcat(Owed(IdSet(ms[0].toolCalls)), results, rest);
    } else {
      assert ms[1..] == rest;
    }
  }

  lemma ShiftedIds(ms: seq<Message>, n: nat)
    requires n < |ms|
    ensures (set k | 1 <= k <= n :: ms[k].toolCallId) == (set k | 0 <= k < n :: ms[1..][k].toolCallId)
    ensures (set k | 0 <= k < n :: ms[1..][k].toolCallId) == (set k | 0 <= k < n :: ms[1..][..n][k].toolCallId)
    ensures (forall k | 1 <= k <= n :: ms[k].role == Tool) <==> AllTools(ms[1..][..n])
  {
    var later := ms[1..];
    var these, those := set k | 1 <= k <= n :: ms[k].toolCallId, set k | 0 <= k < n :: later[k].toolCallId;
    forall x | x in these ensures x in those {
      var k :| 1 <= k <= n && ms[k].toolCallId == x;
      assert later[k - 1].toolCallId == x;
    }
    forall x | x in those ensures x in these {
      var k :| 0 <= k < n && later[k].toolCallId == x;
      assert ms[k + 1].toolCallId == x;
    }
    assert forall k | 0 <= k < n :: later[..n][k] == later[k] == ms[k + 1];
    if AllTools(later[..n]) {
      forall k | 1 <= k <= n ensures ms[k].role == Tool {
        assert later[..n][k - 1].role == Tool;
      }
    }
  }

  /** A transcript is balanced exactly when it is in turns. */
  lemma {:induction false} BalancedExactlyIf(ms: seq<Message>)
    ensures Balanced(ms) <==> InTurns(ms)
    decreases |ms|
  {
    hide Balanced, GoodIds, DistinctIds, AllTools;
    if ms == [] {
      NothingIsBalanced();
    } else {
      var n := Calls(ms[0]);
      if Balanced(ms) {
        TurnOfBalanced(ms);
      }
      if n < |ms| {
        var calls := ms[0].toolCalls[..n];
        BalancedExactlyIf(ms[n + 1..]);
        GoodIdsAre(calls);
        IdSetIs(calls);
        ShiftedIds(ms, n);
        AnsweredAre(ms[1..], n);
        AnsweredAre(ms[1..][..n], n);
        if InTurns(ms) {
          TurnBalances(ms);
        }
      }
    }
  }

  lemma NothingIsBalanced()
    ensures Balanced([])
  {
  }
}
