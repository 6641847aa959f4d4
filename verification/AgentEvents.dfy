/** Interactive sub-agents reporting to their coordinator: a bounded channel that workers send
    to without blocking, and a list that takes the terminal events it has no room for. */
module AgentEvents {
  import opened Wrappers

  datatype Kind = Clarify | Completed | Failed

  datatype Event = Event(agent: nat, kind: Kind)

  const BUFFER := 64

  /** Where a worker is: at the top of its loop, in its model loop, about to report a question,
      waiting for the answer, about to send its terminal event, holding that event because
      the channel had no room, or gone. */
  datatype Phase = Top | Running | Asking | Waiting | Ending(kind: Kind) | Spilling(kind: Kind) | Exited

  /** Where a call for the next event is: it tries the channel, then the spilled events, and
      then waits on the channel. */
  datatype Stage = Start | ChannelTried | Blocked

  datatype State = State(
    channel: seq<Event>,
    spilled: seq<Event>,
    delivered: seq<Event>,
    workers: map<nat, Phase>,
    terminated: set<nat>,
    calls: map<nat, Stage>,
    asked: multiset<nat>,
    dropped: multiset<nat>)

  datatype Move =
    | Launch(agent: nat)
    | Terminate(agent: nat)
    | Loop(agent: nat)
    | Reply(agent: nat, outcome: Kind)
    | Answer(agent: nat)
    | GiveUp(agent: nat)
    | Panic(agent: nat)
    | Send(agent: nat)
    | Spill(agent: nat)
    | Call(call: nat)
    | Receive(call: nat)
    | Pop(call: nat)
    | TimeOut(call: nat)

  function Init(): State {
    State([], [], [], map[], {}, map[], multiset{}, multiset{})
  }

  function AtPhase(s: State, a: nat): Phase {
    if a in s.workers then s.workers[a] else Exited
  }

  predicate Sending(p: Phase) {
    p.Asking? || p.Ending?
  }

  ghost predicate Next(s: State, m: Move, t: State) {
    match m
    case Launch(a) => a !in s.workers && t == s.(workers := s.workers[a := Top])
    case Terminate(a) => a in s.workers && t == s.(terminated := s.terminated + {a})
    case Loop(a) =>
      // the worker looks at its done channel and ends, or runs its model loop
      && AtPhase(s, a) == Top
      && t == s.(workers := s.workers[a := if a in s.terminated then Ending(Failed) else Running])
    case Reply(a, outcome) =>
      // the model loop fails, asks, or gives a final result
      && AtPhase(s, a) == Running
      && t == s.(workers := s.workers[a := if outcome.Clarify? then Asking else Ending(outcome)])
    case Answer(a) => AtPhase(s, a) == Waiting && t == s.(workers := s.workers[a := Top])
    case GiveUp(a) =>
      && AtPhase(s, a) == Waiting && a in s.terminated
      && t == s.(workers := s.workers[a := Ending(Failed)])
    case Panic(a) =>
      // recovered by ending as failed, wherever it happens before the terminal event is sent
      && a in s.workers && !s.workers[a].Spilling? && !s.workers[a].Exited?
      && t == s.(workers := s.workers[a := Ending(Failed)])
    case Send(a) =>
      && a in s.workers && Sending(s.workers[a])
      && var e := Event(a, if s.workers[a].Asking? then Clarify else s.workers[a].kind);
         var room := |s.channel| < BUFFER;
         && t == s.(asked := if e.kind.Clarify? then s.asked + multiset{a} else s.asked,
                    channel := if room then s.channel + [e] else s.channel,
                    dropped := if !room && e.kind.Clarify? then s.dropped + multiset{a} else s.dropped,
                    workers := s.workers[a := if e.kind.Clarify? then Waiting else if room then Exited else Spilling(e.kind)])
    case Spill(a) =>
      && AtPhase(s, a).Spilling?
      && t == s.(spilled := s.spilled + [Event(a, s.workers[a].kind)], workers := s.workers[a := Exited])
    case Call(c) => c !in s.calls && t == s.(calls := s.calls[c := Start])
    case Receive(c) =>
      && c in s.calls && s.calls[c] != ChannelTried
      && if s.channel != []
         then t == s.(channel := s.channel[1..], delivered := s.delivered + [s.channel[0]], calls := s.calls - {c})
         else s.calls[c] == Start && t == s.(calls := s.calls[c := ChannelTried])
    case Pop(c) =>
      && c in s.calls && s.calls[c] == ChannelTried
      && if s.spilled != []
         then t == s.(spilled := s.spilled[1..], delivered := s.delivered + [s.spilled[0]], calls := s.calls - {c})
         else t == s.(calls := s.calls[c := Blocked])
    case TimeOut(c) => c in s.calls && s.calls[c] == Blocked && t == s.(calls := s.calls - {c})
  }

  /** How many events of an agent a queue holds, its terminal ones or its questions. */
  function Count(q: seq<Event>, a: nat, terminal: bool): nat {
    if q == [] then 0
    else (if q[0].agent == a && (q[0].kind != Clarify) == terminal then 1 else 0) + Count(q[1..], a, terminal)
  }

  lemma {:induction false} CountSnoc(q: seq<Event>, e: Event, a: nat, terminal: bool)
    ensures Count(q + [e], a, terminal) == Count(q, a, terminal) + Count([e], a, terminal)
  {
    if q != [] {
      assert (q + [e])[1..] == q[1..] + [e];
      CountSnoc(q[1..], e, a, terminal);
    } else {
      assert q + [e] == [e];
    }
  }

  lemma CountHead(q: seq<Event>, a: nat, terminal: bool)
    requires q != []
    ensures Count(q, a, terminal) == Count([q[0]], a, terminal) + Count(q[1..], a, terminal)
  {
    assert [q[0]][1..] == [];
  }

  function InQueues(s: State, a: nat, terminal: bool): nat {
    Count(s.channel, a, terminal) + Count(s.spilled, a, terminal) + Count(s.delivered, a, terminal)
  }

  /** The terminal event of a worker that has exited is in exactly one queue, and no other
      worker has one anywhere; each question sent is queued, delivered or dropped. */
  ghost predicate Conserved(s: State) {
    && |s.channel| <= BUFFER
    && forall a :: AgentConserved(s, a)
  }

  ghost predicate AgentConserved(s: State, a: nat) {
    && InQueues(s, a, true) == (if a in s.workers && s.workers[a].Exited? then 1 else 0)
    && InQueues(s, a, false) + s.dropped[a] == s.asked[a]
    && (a in s.workers && s.workers[a].Ending? ==> s.workers[a].kind != Clarify)
    && (a in s.workers && s.workers[a].Spilling? ==> s.workers[a].kind != Clarify)
  }

  lemma NextConserves(s: State, m: Move, t: State, a: nat)
    requires Conserved(s) && Next(s, m, t)
    ensures |t.channel| <= BUFFER && AgentConserved(t, a)
  {
    hide Next, Conserved, AgentConserved;
    match m
    case Send(b) => SendConserves(s, b, t, a);
    case Spill(b) => SpillConserves(s, b, t, a);
    case Receive(_) => DeliveryConserves(s, m, t, a);
    case Pop(_) => DeliveryConserves(s, m, t, a);
    case _ => QuietConserves(s, m, t, a);
  }

  predicate Quiet(m: Move) {
    !m.Send? && !m.Spill? && !m.Receive? && !m.Pop?
  }

  lemma QuietConserves(s: State, m: Move, t: State, a: nat)
    requires Conserved(s) && Next(s, m, t) && Quiet(m)
    ensures |t.channel| <= BUFFER && AgentConserved(t, a)
  {
    assert AgentConserved(s, a);
    hide Count;
  }

  lemma SpillConserves(s: State, b: nat, t: State, a: nat)
    requires Conserved(s) && Next(s, Spill(b), t)
    ensures |t.channel| <= BUFFER && AgentConserved(t, a)
  {
    assert AgentConserved(s, a) && AgentConserved(s, b);
    hide Count;
    var e := Event(b, s.workers[b].kind);
    CountSnoc(s.spilled, e, a, true);
    CountSnoc(s.spilled, e, a, false);
    CountOne(e, a);
  }

  lemma DeliveryConserves(s: State, m: Move, t: State, a: nat)
    requires Conserved(s) && Next(s, m, t) && (m.Receive? || m.Pop?)
    ensures |t.channel| <= BUFFER && AgentConserved(t, a)
  {
    assert AgentConserved(s, a);
    hide Count;
    if m.Receive? && s.channel != [] {
      Moves(s.channel, s.delivered, a);
    } else if m.Pop? && s.spilled != [] {
      Moves(s.spilled, s.delivered, a);
    }
  }

  lemma CountOne(e: Event, a: nat)
    ensures Count([e], a, true) == (if e.agent == a && e.kind != Clarify then 1 else 0)
    ensures Count([e], a, false) == (if e.agent == a && e.kind == Clarify then 1 else 0)
  {
    assert [e][1..] == [];
  }

  /** The head of a queue, delivered. */
  lemma Moves(q: seq<Event>, delivered: seq<Event>, a: nat)
    requires q != []
    ensures forall terminal :: Count(q[1..], a, terminal) + Count(delivered + [q[0]], a, terminal) == Count(q, a, terminal) + Count(delivered, a, terminal)
  {
    forall terminal
      ensures Count(q[1..], a, terminal) + Count(delivered + [q[0]], a, terminal) == Count(q, a, terminal) + Count(delivered, a, terminal)
    {
      CountHead(q, a, terminal);
      CountSnoc(delivered, q[0], a, terminal);
    }
  }

  lemma SendConserves(s: State, b: nat, t: State, a: nat)
    requires Conserved(s) && Next(s, Send(b), t)
    ensures |t.channel| <= BUFFER && AgentConserved(t, a)
  {
    assert AgentConserved(s, a) && AgentConserved(s, b);
    hide Count;
    var e := Event(b, if s.workers[b].Asking? then Clarify else s.workers[b].kind);
    CountSnoc(s.channel, e, a, true);
    CountSnoc(s.channel, e, a, false);
    CountOne(e, a);
  }

  /** A question is dropped only when the channel has no room for it. */
  lemma DroppedOnlyWhenFull(s: State, m: Move, t: State)
    requires Conserved(s) && Next(s, m, t) && t.dropped != s.dropped
    ensures m.Send? && |s.channel| == 64 && AtPhase(s, m.agent) == Asking
  {
    if m.Send? {
      assert AgentConserved(s, m.agent);
    }
  }

  ghost predicate IsRun(ss: seq<State>, ms: seq<Move>) {
    && |ss| == |ms| + 1 && ss[0] == Init()
    && forall k | 0 <= k < |ms| :: Next(ss[k], ms[k], ss[k + 1])
  }

  /** Whatever the interleaving, no terminal event is lost or duplicated, and every worker
      that exits has sent exactly one. */
  lemma {:induction false} RunConserves(ss: seq<State>, ms: seq<Move>, n: nat)
    requires IsRun(ss, ms) && n <= |ms|
    ensures Conserved(ss[n])
  {
    if n > 0 {
      RunConserves(ss, ms, n - 1);
      assert Next(ss[n - 1], ms[n - 1], ss[n]);
      forall a ensures AgentConserved(ss[n], a) {
        NextConserves(ss[n - 1], ms[n - 1], ss[n], a);
      }
      NextConserves(ss[n - 1], ms[n - 1], ss[n], 0);
    }
  }

  /** Once both queues are drained the coordinator has seen exactly one terminal event of each
      worker that exited. */
  lemma DrainedMeansDelivered(ss: seq<State>, ms: seq<Move>, a: nat)
    requires IsRun(ss, ms)
    requires ss[|ms|].channel == [] && ss[|ms|].spilled == []
    ensures Count(ss[|ms|].delivered, a, true) == if a in ss[|ms|].workers && ss[|ms|].workers[a].Exited? then 1 else 0
  {
    RunConserves(ss, ms, |ms|);
    assert AgentConserved(ss[|ms|], a);
  }

  // ---------------------------------------------------------------------------
  // What is sent, and in which order it arrives
  // ---------------------------------------------------------------------------

  /** A move that settles what a worker is to report: the outcome of its model loop; or a
      failure, when it panics, gives up waiting, or finds itself terminated. */
  predicate Settles(ms: seq<Move>, k: nat, a: nat)
    requires k < |ms|
  {
    || (ms[k].Reply? && ms[k].agent == a)
    || ms[k] == Panic(a) || ms[k] == GiveUp(a)
    || (ms[k] == Loop(a) && Terminate(a) in ms[..k])
  }

  function Settled(m: Move): Kind {
    if m.Reply? then m.outcome else Failed
  }

  /** The k-th move is the last one of the first n to settle it. */
  ghost predicate LastSettles(ms: seq<Move>, n: nat, k: nat, a: nat) {
    k < n <= |ms| && Settles(ms, k, a) && forall j: nat | k < j < n :: !Settles(ms, j, a)
  }

  /** What the first n moves have a worker report. */
  ghost predicate Reports(ms: seq<Move>, n: nat, e: Event) {
    exists k: nat :: LastSettles(ms, n, k, e.agent) && Settled(ms[k]) == e.kind
  }

  lemma ReportsOn(ms: seq<Move>, n: nat, e: Event)
    requires n < |ms|
    ensures Settles(ms, n, e.agent) ==> (Reports(ms, n + 1, e) <==> e.kind == Settled(ms[n]))
    ensures !Settles(ms, n, e.agent) ==> (Reports(ms, n + 1, e) <==> Reports(ms, n, e))
  {
    hide Settles, Settled;
    if Settles(ms, n, e.agent) {
      assert LastSettles(ms, n + 1, n, e.agent);
    } else {
      forall k: nat ensures LastSettles(ms, n + 1, k, e.agent) <==> LastSettles(ms, n, k, e.agent) {
      }
    }
  }

  /** A worker about to report is about to report what was settled last. */
  ghost predicate Reporting(s: State, ms: seq<Move>, n: nat, a: nat) {
    && n <= |ms| && (a in s.terminated <==> Terminate(a) in ms[..n])
    && (AtPhase(s, a).Asking? ==> Reports(ms, n, Event(a, Clarify)))
    && (AtPhase(s, a).Ending? ==> Reports(ms, n, Event(a, AtPhase(s, a).kind)))
    && (AtPhase(s, a).Spilling? ==> Reports(ms, n, Event(a, AtPhase(s, a).kind)))
  }

  lemma TerminatedOn(ss: seq<State>, ms: seq<Move>, n: nat, a: nat)
    requires IsRun(ss, ms) && n < |ms| && (a in ss[n].terminated <==> Terminate(a) in ms[..n])
    ensures a in ss[n + 1].terminated <==> Terminate(a) in ms[..n + 1]
  {
    assert Next(ss[n], ms[n], ss[n + 1]) && ms[..n + 1] == ms[..n] + [ms[n]];
  }

  /** How a worker comes to be about to report. */
  lemma ComesToReport(s: State, m: Move, t: State, a: nat)
    requires Next(s, m, t)
    ensures var settles := m == Panic(a) || m == GiveUp(a) || (m == Loop(a) && a in s.terminated) || (m.Reply? && m.agent == a);
            match AtPhase(t, a)
            case Asking => if settles then m == Reply(a, Clarify) else AtPhase(s, a) == Asking
            case Ending(kind) => if settles then kind == (if m.Reply? then m.outcome else Failed) else AtPhase(s, a) == Ending(kind)
            case Spilling(kind) => !settles && (AtPhase(s, a) == Spilling(kind) || AtPhase(s, a) == Ending(kind))
            case _ => true
  {
  }

  lemma {:induction false} WorkersReport(ss: seq<State>, ms: seq<Move>, n: nat, a: nat)
    requires IsRun(ss, ms) && n <= |ms|
    ensures Reporting(ss[n], ms, n, a)
  {
    hide Reports, Next, AtPhase;
    if n > 0 {
      WorkersReport(ss, ms, n - 1, a);
      TerminatedOn(ss, ms, n - 1, a);
      assert Next(ss[n - 1], ms[n - 1], ss[n]);
      ComesToReport(ss[n - 1], ms[n - 1], ss[n], a);
      ReportsOn(ms, n - 1, Event(a, Clarify));
      var p := AtPhase(ss[n], a);
      if p.Ending? || p.Spilling? {
        ReportsOn(ms, n - 1, Event(a, p.kind));
      }
    } else {
      NobodyReports(a);
    }
  }

  lemma NobodyReports(a: nat)
    ensures AtPhase(Init(), a) == Exited && Init().terminated == {}
  {
  }

  /** What is sent is what was settled last: the outcome of the model loop, or a failure. */
  lemma SentAsSettled(ss: seq<State>, ms: seq<Move>, n: nat)
    requires IsRun(ss, ms) && n < |ms| && ms[n].Send?
    ensures exists e: Event | e.agent == ms[n].agent && Reports(ms, n, e) ::
              if |ss[n].channel| < 64 then ss[n + 1].channel == ss[n].channel + [e]
              else ss[n + 1].channel == ss[n].channel
                   && if e.kind == Clarify then ss[n + 1].dropped == ss[n].dropped + multiset{e.agent}
                      else AtPhase(ss[n + 1], e.agent) == Spilling(e.kind)
  {
    hide Reports;
    var s, a := ss[n], ms[n].agent;
    WorkersReport(ss, ms, n, a);
    assert Next(s, ms[n], ss[n + 1]);
    var e := Event(a, if s.workers[a].Asking? then Clarify else s.workers[a].kind);
    assert Reports(ms, n, e);
  }

  function Queued(s: State): seq<Event> {
    s.channel + s.spilled + s.delivered
  }

  /** No move settles anything for a worker that is spilling its event or gone. */
  lemma OverIsOver(ss: seq<State>, ms: seq<Move>, n: nat, a: nat)
    requires IsRun(ss, ms) && n < |ms| && a in ss[n].workers && (ss[n].workers[a].Spilling? || ss[n].workers[a].Exited?)
    ensures !Settles(ms, n, a)
  {
    assert Next(ss[n], ms[n], ss[n + 1]);
  }

  /** What one move adds to the queues. */
  lemma NewlyQueued(s: State, m: Move, t: State, e: Event)
    requires Next(s, m, t) && e in Queued(t) && e !in Queued(s)
    ensures (m.Send? || m.Spill?) && e.agent == m.agent && e.agent in s.workers
    ensures s.workers[e.agent].Asking? || s.workers[e.agent].Ending? || s.workers[e.agent].Spilling?
    ensures e.kind == if s.workers[e.agent].Asking? then Clarify else s.workers[e.agent].kind
  {
  }

  /** A worker that has a terminal event in a queue is gone. */
  lemma TerminalMeansExited(s: State, e: Event)
    requires Conserved(s) && e in Queued(s) && e.kind != Clarify
    ensures e.agent in s.workers && s.workers[e.agent].Exited?
  {
    assert AgentConserved(s, e.agent);
    if e in s.channel {
      CountIn(s.channel, e);
    } else if e in s.spilled {
      CountIn(s.spilled, e);
    } else {
      CountIn(s.delivered, e);
    }
  }

  lemma {:induction false} CountIn(q: seq<Event>, e: Event)
    requires e in q && e.kind != Clarify
    ensures Count(q, e.agent, true) > 0
  {
    if q[0] != e {
      CountIn(q[1..], e);
    }
  }

  /** Along every run a terminal event, in whichever queue it is, is of the kind settled last for
      its worker: the outcome of its model loop, or a failure. */
  lemma {:induction false} TerminalEventsAreTrue(ss: seq<State>, ms: seq<Move>, n: nat, e: Event)
    requires IsRun(ss, ms) && n <= |ms| && e in Queued(ss[n]) && e.kind != Clarify
    ensures exists k: nat :: LastSettles(ms, n, k, e.agent) && Settled(ms[k]) == e.kind
  {
    hide LastSettles, Settled, Next, Conserved;
    if n > 0 {
      RunConserves(ss, ms, n - 1);
      assert Next(ss[n - 1], ms[n - 1], ss[n]);
      ReportsOn(ms, n - 1, e);
      if e in Queued(ss[n - 1]) {
        TerminalMeansExited(ss[n - 1], e);
        TerminalEventsAreTrue(ss, ms, n - 1, e);
        OverIsOver(ss, ms, n - 1, e.agent);
      } else {
        NewlyQueued(ss[n - 1], ms[n - 1], ss[n], e);
        WorkersReport(ss, ms, n - 1, e.agent);
        assert Reports(ms, n - 1, e);
        assert !Settles(ms, n - 1, e.agent);
      }
      assert Reports(ms, n, e);
    }
  }

  /** So success is only reported of a worker whose model loop succeeded, and a question only of
      one that asked it. */
  lemma {:induction false} OnlyWhatHappenedIsReported(ss: seq<State>, ms: seq<Move>, n: nat, e: Event)
    requires IsRun(ss, ms) && n <= |ms| && e in Queued(ss[n]) && (e.kind == Completed || e.kind == Clarify)
    ensures Reply(e.agent, e.kind) in ms[..n]
  {
    hide Reports, Next;
    if n > 0 {
      assert Next(ss[n - 1], ms[n - 1], ss[n]);
      assert ms[..n] == ms[..n - 1] + [ms[n - 1]];
      if e in Queued(ss[n - 1]) {
        OnlyWhatHappenedIsReported(ss, ms, n - 1, e);
      } else {
        NewlyQueued(ss[n - 1], ms[n - 1], ss[n], e);
        WorkersReport(ss, ms, n - 1, e.agent);
        SettledByReply(ms, n - 1, e);
      }
    }
  }

  lemma SettledByReply(ms: seq<Move>, n: nat, e: Event)
    requires n <= |ms| && Reports(ms, n, e) && e.kind != Failed
    ensures Reply(e.agent, e.kind) in ms[..n]
  {
    var k: nat :| LastSettles(ms, n, k, e.agent) && Settled(ms[k]) == e.kind;
    assert ms[k] == ms[..n][k];
  }

  /** What a queue gains at its end. */
  function Gain(before: seq<Event>, after: seq<Event>): seq<Event> {
    if |before| < |after| then after[|before|..] else []
  }

  /** The events that went into the channel, or onto the spill list. */
  ghost function Entered(ss: seq<State>, ms: seq<Move>, n: nat, spill: bool): seq<Event>
    requires IsRun(ss, ms) && n <= |ms|
  {
    if n == 0 then []
    else
      Entered(ss, ms, n - 1, spill) +
      if spill then Gain(ss[n - 1].spilled, ss[n].spilled) else Gain(ss[n - 1].channel, ss[n].channel)
  }

  /** The events that calls got from the channel, or from the spill list. */
  ghost function Got(ss: seq<State>, ms: seq<Move>, n: nat, spill: bool): seq<Event>
    requires IsRun(ss, ms) && n <= |ms|
  {
    if n == 0 then []
    else
      Got(ss, ms, n - 1, spill) +
      if (if spill then ms[n - 1].Pop? else ms[n - 1].Receive?) then Gain(ss[n - 1].delivered, ss[n].delivered) else []
  }

  lemma QueueStep(s: State, m: Move, t: State)
    requires Next(s, m, t)
    ensures s.channel + Gain(s.channel, t.channel) == (if m.Receive? then Gain(s.delivered, t.delivered) else []) + t.channel
    ensures s.spilled + Gain(s.spilled, t.spilled) == (if m.Pop? then Gain(s.delivered, t.delivered) else []) + t.spilled
  {
  }

  lemma Passes<T>(got: seq<T>, was: seq<T>, gained: seq<T>, out: seq<T>, now: seq<T>, entered: seq<T>)
    requires got + was == entered && was + gained == out + now
    ensures got + out + now == entered + gained
  {
    assert got + out + now == got + (out + now) == got + (was + gained) == got + was + gained;
  }

  /** Events leave the channel in the order in which they went in, and the spill list likewise. */
  lemma {:induction false} OrderIsKept(ss: seq<State>, ms: seq<Move>, n: nat)
    requires IsRun(ss, ms) && n <= |ms|
    ensures Got(ss, ms, n, false) + ss[n].channel == Entered(ss, ms, n, false)
    ensures Got(ss, ms, n, true) + ss[n].spilled == Entered(ss, ms, n, true)
  {
    hide Next, Gain;
    if n > 0 {
      OrderIsKept(ss, ms, n - 1);
      var s, m, t := ss[n - 1], ms[n - 1], ss[n];
      assert Next(s, m, t);
      QueueStep(s, m, t);
      Passes(Got(ss, ms, n - 1, false), s.channel, Gain(s.channel, t.channel),
             if m.Receive? then Gain(s.delivered, t.delivered) else [], t.channel, Entered(ss, ms, n - 1, false));
      Passes(Got(ss, ms, n - 1, true), s.spilled, Gain(s.spilled, t.spilled),
             if m.Pop? then Gain(s.delivered, t.delivered) else [], t.spilled, Entered(ss, ms, n - 1, true));
    }
  }

  /** At the top of its loop a worker runs its model again unless it has been terminated. */
  lemma LoopsUnlessTerminated(ss: seq<State>, ms: seq<Move>, n: nat, a: nat)
    requires IsRun(ss, ms) && n < |ms| && ms[n] == Loop(a)
    ensures AtPhase(ss[n + 1], a) == if Terminate(a) in ms[..n] then Ending(Failed) else Running
  {
    WorkersReport(ss, ms, n, a);
    assert Next(ss[n], ms[n], ss[n + 1]);
  }

  /** A worker that is over: it has only its terminal event to send, if that. */
  predicate Over(s: State, a: nat) {
    a in s.workers && (s.workers[a].Ending? || s.workers[a].Spilling? || s.workers[a].Exited?)
  }

  lemma EndsOnTerminal(s: State, a: nat)
    requires Conserved(s)
    ensures a in s.workers && s.workers[a].Ending? ==> s.workers[a].kind != Clarify
  {
    hide Count;
    assert AgentConserved(s, a);
  }

  lemma OverNext(s: State, m: Move, t: State, a: nat)
    requires Next(s, m, t) && Over(s, a) && (s.workers[a].Ending? ==> s.workers[a].kind != Clarify)
    ensures Over(t, a)
  {
  }

  lemma {:induction false} StaysOver(ss: seq<State>, ms: seq<Move>, k: nat, n: nat, a: nat)
    requires IsRun(ss, ms) && k <= n <= |ms| && Over(ss[k], a)
    ensures Over(ss[n], a)
    decreases n - k
  {
    hide Conserved;
    if k < n {
      StaysOver(ss, ms, k, n - 1, a);
      assert Next(ss[n - 1], ms[n - 1], ss[n]);
      RunConserves(ss, ms, n - 1);
      EndsOnTerminal(ss[n - 1], a);
      hide Next, Conserved, Over;
      OverNext(ss[n - 1], ms[n - 1], ss[n], a);
    }
  }

  /** Once a terminated worker has come to the top of its loop, its model never runs again. */
  lemma NoWorkAfterTermination(ss: seq<State>, ms: seq<Move>, k: nat, n: nat, a: nat)
    requires IsRun(ss, ms) && k < n < |ms| && Terminate(a) in ms[..k] && ms[k] == Loop(a)
    ensures ms[n] != Loop(a) && forall outcome :: ms[n] != Reply(a, outcome)
  {
    LoopsUnlessTerminated(ss, ms, k, a);
    StaysOver(ss, ms, k + 1, n, a);
    assert Next(ss[n], ms[n], ss[n + 1]);
  }

  function CallsMade(ms: seq<Move>): nat {
    if ms == [] then 0 else CallsMade(ms[..|ms| - 1]) + if ms[|ms| - 1].Call? then 1 else 0
  }

  function TimeOuts(ms: seq<Move>): nat {
    if ms == [] then 0 else TimeOuts(ms[..|ms| - 1]) + if ms[|ms| - 1].TimeOut? then 1 else 0
  }

  lemma CallStep(s: State, m: Move, t: State)
    requires Next(s, m, t)
    ensures |t.delivered| + |t.calls| + (if m.TimeOut? then 1 else 0) == |s.delivered| + |s.calls| + if m.Call? then 1 else 0
  {
    match m {
      case Receive(c) => OneCall(s.calls, c, ChannelTried);
      case Pop(c) => OneCall(s.calls, c, Blocked);
      case TimeOut(c) => OneCall(s.calls, c, Blocked);
      case Call(c) => OneCall(s.calls, c, Start);
      case _ =>
    }
  }

  lemma OneCall(calls: map<nat, Stage>, c: nat, stage: Stage)
    ensures |calls[c := stage]| == if c in calls then |calls| else |calls| + 1
    ensures c in calls ==> |calls - {c}| == |calls| - 1
  {
    assert |calls| == |calls.Keys|;
    assert calls[c := stage].Keys == calls.Keys + {c} && |calls[c := stage]| == |calls[c := stage].Keys|;
    assert (calls - {c}).Keys == calls.Keys - {c} && |calls - {c}| == |(calls - {c}).Keys|;
  }

  /** Each call gets one event, times out, or is still under way. */
  lemma {:induction false} CallsGetOneEach(ss: seq<State>, ms: seq<Move>, n: nat)
    requires IsRun(ss, ms) && n <= |ms|
    ensures |ss[n].delivered| + |ss[n].calls| + TimeOuts(ms[..n]) == CallsMade(ms[..n])
  {
    hide Next;
    if n > 0 {
      CallsGetOneEach(ss, ms, n - 1);
      assert Next(ss[n - 1], ms[n - 1], ss[n]);
      CallStep(ss[n - 1], ms[n - 1], ss[n]);
      assert ms[..n][..n - 1] == ms[..n - 1];
    }
  }

  /** A call that waits has found the channel empty and, later, nothing spilled. */
  lemma {:induction false} WaitsAfterBothEmpty(ss: seq<State>, ms: seq<Move>, n: nat, c: nat)
    requires IsRun(ss, ms) && n <= |ms| && c in ss[n].calls
    ensures ss[n].calls[c] == ChannelTried || ss[n].calls[c] == Blocked ==>
              exists j: nat | j < n :: ms[j] == Receive(c) && ss[j].channel == []
    ensures ss[n].calls[c] == Blocked ==>
              exists j: nat, k: nat | j < k < n :: ms[j] == Receive(c) && ss[j].channel == [] && ms[k] == Pop(c) && ss[k].spilled == []
  {
    if n > 0 {
      var s, m, t := ss[n - 1], ms[n - 1], ss[n];
      assert Next(s, m, t);
      if c in s.calls {
        WaitsAfterBothEmpty(ss, ms, n - 1, c);
      }
    }
  }

  // ---------------------------------------------------------------------------
  // Which waits end
  // ---------------------------------------------------------------------------

  /** Within n moves of the workers launched so far, and of anyone else, the channel holds an
      event for a call that is still waiting on it. */
  ghost predicate Wakes(s: State, c: nat, n: nat)
    decreases n
  {
    && c in s.calls && s.calls[c] == Blocked
    && (s.channel != [] || (n > 0 && exists m: Move, t :: !m.Launch? && Next(s, m, t) && Wakes(t, c, n - 1)))
  }

  /** A worker that may still send something to the channel. */
  predicate MaySend(s: State, a: nat) {
    a in s.workers && !s.workers[a].Exited? && !s.workers[a].Spilling?
  }

  ghost predicate Silent(s: State) {
    s.channel == [] && forall a :: !MaySend(s, a)
  }

  lemma SendersMaySend(s: State, m: Move, t: State)
    requires Next(s, m, t)
    ensures m.Send? ==> MaySend(s, m.agent)
  {
  }

  /** Without a launch, silence lasts, and a waiting call only ends by timing out. */
  lemma SilenceLasts(s: State, m: Move, t: State, c: nat)
    requires Silent(s) && Next(s, m, t) && !m.Launch? && c in s.calls && s.calls[c] == Blocked
    ensures Silent(t) && (m == TimeOut(c) || (c in t.calls && t.calls[c] == Blocked))
  {
    forall a ensures !MaySend(t, a) {
      assert !MaySend(s, a);
    }
    SendersMaySend(s, m, t);
  }

  lemma {:induction false} SilenceWakesNobody(s: State, c: nat, n: nat)
    requires Silent(s) && c in s.calls && s.calls[c] == Blocked
    ensures !Wakes(s, c, n)
    decreases n
  {
    if n > 0 {
      forall m: Move, t | !m.Launch? && Next(s, m, t) ensures !Wakes(t, c, n - 1) {
        SilenceLasts(s, m, t, c);
        if m != TimeOut(c) {
          SilenceWakesNobody(t, c, n - 1);
        }
      }
    }
  }

  /** Moves left at most until a worker sends. */
  function ToSend(p: Phase): nat {
    match p
    case Waiting => 3
    case Top => 2
    case Running => 1
    case _ => 0
  }

  /** A worker that has not ended comes to send an event, and the waiting call wakes. */
  lemma {:induction false} WorkerWakes(s: State, a: nat, c: nat)
    requires s.channel == [] && MaySend(s, a) && c in s.calls && s.calls[c] == Blocked
    ensures Wakes(s, c, ToSend(s.workers[a]) + 1)
    decreases ToSend(s.workers[a]), 1
  {
    var w := s.workers[a];
    match w
    case Waiting => OneStepCloser(s, a, c, Answer(a), s.(workers := s.workers[a := Top]));
    case Top =>
      OneStepCloser(s, a, c, Loop(a), s.(workers := s.workers[a := if a in s.terminated then Ending(Failed) else Running]));
    case Running => OneStepCloser(s, a, c, Reply(a, Completed), s.(workers := s.workers[a := Ending(Completed)]));
    case Asking => Sends(s, a, c);
    case Ending(_) => Sends(s, a, c);
  }

  lemma {:induction false} OneStepCloser(s: State, a: nat, c: nat, m: Move, t: State)
    requires s.channel == [] && MaySend(s, a) && c in s.calls && s.calls[c] == Blocked
    requires !m.Launch? && Next(s, m, t) && t.channel == [] && t.calls == s.calls && MaySend(t, a)
    requires ToSend(t.workers[a]) < ToSend(s.workers[a])
    ensures Wakes(s, c, ToSend(s.workers[a]) + 1)
    decreases ToSend(s.workers[a]), 0
  {
    WorkerWakes(t, a, c);
    WakesLater(t, c, ToSend(t.workers[a]) + 1, ToSend(s.workers[a]));
  }

  lemma {:induction false} WakesLater(s: State, c: nat, n: nat, more: nat)
    requires Wakes(s, c, n) && n <= more
    ensures Wakes(s, c, more)
    decreases n
  {
    if s.channel == [] {
      var m: Move, t :| !m.Launch? && Next(s, m, t) && Wakes(t, c, n - 1);
      WakesLater(t, c, n - 1, more - 1);
    }
  }

  lemma Sends(s: State, a: nat, c: nat)
    requires s.channel == [] && MaySend(s, a) && Sending(s.workers[a]) && c in s.calls && s.calls[c] == Blocked
    ensures Wakes(s, c, 1)
  {
    var e := Event(a, if s.workers[a].Asking? then Clarify else s.workers[a].kind);
    var t := s.(asked := if e.kind.Clarify? then s.asked + multiset{a} else s.asked,
                channel := [e],
                workers := s.workers[a := if e.kind.Clarify? then Waiting else Exited]);
    assert s.channel + [e] == [e];
    assert Next(s, Send(a), t);
    assert Wakes(t, c, 0);
  }

  /** The workers launched so far can wake a waiting call exactly when the channel holds an
      event already, or one of them has neither exited nor lost its chance of the channel. */
  lemma WakesExactlyIf(s: State, c: nat)
    requires c in s.calls && s.calls[c] == Blocked
    ensures (exists n :: Wakes(s, c, n)) <==> s.channel != [] || exists a :: MaySend(s, a)
  {
    if s.channel != [] {
      assert Wakes(s, c, 0);
    } else if exists a :: MaySend(s, a) {
      var a :| MaySend(s, a);
      WorkerWakes(s, a, c);
      assert Wakes(s, c, ToSend(s.workers[a]) + 1);
    } else {
      forall n ensures !Wakes(s, c, n) {
        SilenceWakesNobody(s, c, n);
      }
    }
  }

  /** A worker launched later can always wake it. */
  lemma LaunchCanWake(s: State, c: nat, a: nat, t: State)
    requires c in s.calls && s.calls[c] == Blocked && Next(s, Launch(a), t)
    ensures exists n :: Wakes(t, c, n)
  {
    assert MaySend(t, a);
    WakesExactlyIf(t, c);
  }

  // ---------------------------------------------------------------------------
  // A spilled event can still be waited for in vain
  // ---------------------------------------------------------------------------

  ghost predicate Reachable(s: State) {
    exists ss, ms :: IsRun(ss, ms) && ss[|ms|] == s
  }

  lemma Reach(s: State, m: Move, t: State)
    requires Reachable(s) && Next(s, m, t)
    ensures Reachable(t)
  {
    var ss, ms :| IsRun(ss, ms) && ss[|ms|] == s;
    var ts, ns := ss + [t], ms + [m];
    forall k | 0 <= k < |ns| ensures Next(ts[k], ns[k], ts[k + 1]) {
    }
    assert IsRun(ts, ns);
  }

  function Done(n: nat): seq<Event> {
    seq(n, k requires 0 <= k < n => Event(k, Completed))
  }

  function Gone(n: nat): (w: map<nat, Phase>)
    ensures forall a: nat :: a in w <==> a < n
    ensures forall a: nat | a in w :: w[a] == Exited
  {
    if n == 0 then map[] else Gone(n - 1)[n - 1 := Exited]
  }

  /** n workers have exited; their events are in the channel but for the first r, received. */
  function After(n: nat, r: nat): State
    requires r <= n
  {
    State(Done(n)[r..], [], Done(n)[..r], Gone(n), {}, map[], multiset{}, multiset{})
  }

  /** A new worker runs its model loop to a result that it has not sent yet. */
  lemma RunsToEnd(s: State, a: nat, t: State)
    requires Reachable(s) && a !in s.workers && a !in s.terminated
    requires t == s.(workers := s.workers[a := Ending(Completed)])
    ensures Reachable(t)
  {
    var u, v := s.(workers := s.workers[a := Top]), s.(workers := s.workers[a := Running]);
    assert u.workers[a := Running] == v.workers && v.workers[a := Ending(Completed)] == t.workers;
    Reach(s, Launch(a), u);
    Reach(u, Loop(a), v);
    Reach(v, Reply(a, Completed), t);
  }

  lemma {:induction false} ChannelFills(n: nat)
    requires n <= BUFFER
    ensures Reachable(After(n, 0))
  {
    if n == 0 {
      assert After(0, 0) == Init();
      assert IsRun([Init()], []);
    } else {
      var s, a := After(n - 1, 0), n - 1;
      ChannelFills(n - 1);
      var t := s.(workers := s.workers[a := Ending(Completed)]);
      RunsToEnd(s, a, t);
      assert Done(n) == Done(n - 1) + [Event(a, Completed)];
      assert t.workers[a := Exited] == After(n, 0).workers;
      Reach(t, Send(a), After(n, 0));
    }
  }

  /** Takes the next event off the channel. */
  lemma Takes(s: State, t: State)
    requires Reachable(s) && s.channel != [] && s.calls == map[]
    requires t == s.(channel := s.channel[1..], delivered := s.delivered + [s.channel[0]])
    ensures Reachable(t)
  {
    var u := s.(calls := map[0 := Start]);
    Reach(s, Call(0), u);
    assert u.calls - {0} == map[];
    Reach(u, Receive(0), t);
  }

  lemma {:induction false} ChannelDrains(s: State, t: State)
    requires Reachable(s) && s.calls == map[]
    requires t == s.(channel := [], delivered := s.delivered + s.channel)
    ensures Reachable(t)
    decreases |s.channel|
  {
    if s.channel == [] {
      assert s.delivered + s.channel == s.delivered;
    } else {
      var u := s.(channel := s.channel[1..], delivered := s.delivered + [s.channel[0]]);
      Takes(s, u);
      assert u.delivered + u.channel == s.delivered + s.channel;
      ChannelDrains(u, t);
    }
  }

  /** A call that finds nothing comes to wait. */
  lemma CallBlocks(s: State)
    requires Reachable(s) && s.channel == [] && s.spilled == [] && s.calls == map[]
    ensures Reachable(s.(calls := map[0 := Blocked]))
  {
    var started, tried, blocked := s.(calls := map[0 := Start]), s.(calls := map[0 := ChannelTried]), s.(calls := map[0 := Blocked]);
    Reach(s, Call(0), started);
    assert started.calls[0 := ChannelTried] == tried.calls;
    Reach(started, Receive(0), tried);
    assert tried.calls[0 := Blocked] == blocked.calls;
    Reach(tried, Pop(0), blocked);
  }

  /** A worker finds the channel full and is held up before it can spill; meanwhile the channel
      is drained and a call, finding nothing spilled, waits on the channel. Then the event is
      spilled, no worker is left to send anything, and nothing that those workers can do ends
      the wait but its own time limit. */
  lemma SpilledEventWaitedForInVain()
    ensures exists s :: Reachable(s) && s.calls == map[0 := Blocked] && s.channel == [] && s.spilled == [Event(BUFFER, Completed)]
                        && (forall a | a in s.workers :: s.workers[a] == Exited)
                        && forall n :: !Wakes(s, 0, n)
  {
    var full := After(BUFFER, 0);
    ChannelFills(BUFFER);
    var ending := full.(workers := full.workers[BUFFER := Ending(Completed)]);
    RunsToEnd(full, BUFFER, ending);
    var held := full.(workers := full.workers[BUFFER := Spilling(Completed)]);
    assert ending.workers[BUFFER := Spilling(Completed)] == held.workers;
    Reach(ending, Send(BUFFER), held);
    var drained := held.(channel := [], delivered := held.delivered + held.channel);
    ChannelDrains(held, drained);
    CallBlocks(drained);
    var blocked := drained.(calls := map[0 := Blocked]);
    var stuck := blocked.(spilled := [Event(BUFFER, Completed)], workers := blocked.workers[BUFFER := Exited]);
    Reach(blocked, Spill(BUFFER), stuck);
    forall n ensures !Wakes(stuck, 0, n) {
      SilenceWakesNobody(stuck, 0, n);
    }
  }
}
