/** The shared sub-agent limiter as a transition system: nested fan-outs that run inline when
    no slot is free, and background launches that are rejected then. */
module Limiter {

  /** A task does its work and then fans out batches of sub-tasks, one after another. */
  datatype Task = Task(id: nat, body: Body)

  datatype Body = Return | FanOut(batch: seq<Task>, rest: Body)

  /** A running task: between fan-outs, or inside one, with the tasks not yet dispatched, the
      one running inline in the same goroutine, and the goroutines it waits for. */
  datatype Proc =
    | Idle(rest: Body)
    | InFanOut(rest: Body, todo: seq<Task>, inline: Inline, spawned: seq<Worker>)

  datatype Inline = NoTask | Running(proc: Proc)

  /** A goroutine and whether it holds a slot. */
  datatype Worker = Worker(proc: Proc, holding: bool)

  function Begin(t: Task): Proc {
    Idle(t.body)
  }

  predicate Finished(p: Proc) {
    p == Idle(Return)
  }

  /** The task a step starts, if any. */
  datatype Started = Nothing | Id(id: nat)

  function Times(ran: Started, x: nat): nat {
    if ran == Id(x) then 1 else 0
  }

  /** A capacity of 0 stands for a limiter without limit: it counts nothing. */
  predicate Free(cap: nat, slots: nat) {
    cap == 0 || slots < cap
  }

  function Acquired(cap: nat, slots: nat): nat {
    if cap == 0 then slots else slots + 1
  }

  /** Releasing takes its empty branch, which does nothing, when no slot is held. */
  function Released(slots: nat): nat {
    if slots > 0 then slots - 1 else slots
  }

  function Without<T>(s: seq<T>, i: nat): seq<T>
    requires i < |s|
  {
    s[..i] + s[i + 1..]
  }

  // ---------------------------------------------------------------------------
  // Steps of one task tree
  // ---------------------------------------------------------------------------

  /** One step of a running task, anywhere in its tree: the slots and the task after it, and
      the tasks it started. */
  ghost predicate ProcStep(cap: nat, s: nat, p: Proc, s': nat, p': Proc, ran: Started)
    decreases p, 1
  {
    match p
    case Idle(rest) =>
      rest.FanOut? && p' == InFanOut(rest.rest, rest.batch, NoTask, []) && s' == s && ran == Nothing
    case InFanOut(_, _, _, _) =>
      || Dispatch(cap, s, p, s', p', ran)
      || InlineStep(cap, s, p, s', p', ran)
      || (exists i | 0 <= i < |p.spawned| :: SpawnedStep(cap, s, p, i, s', p', ran))
      || (p.inline == NoTask && p.todo == [] && p.spawned == [] && p' == Idle(p.rest) && s' == s && ran == Nothing)
  }

  /** The next task gets a goroutine if a slot is free, and runs inline otherwise. */
  ghost predicate Dispatch(cap: nat, s: nat, p: Proc, s': nat, p': Proc, ran: Started)
    requires p.InFanOut?
  {
    && p.inline == NoTask && p.todo != [] && ran == Id(p.todo[0].id)
    && p'.InFanOut? && p'.rest == p.rest && p'.todo == p.todo[1..]
    && if Free(cap, s)
       then s' == Acquired(cap, s) && p'.inline == NoTask && p'.spawned == p.spawned + [Worker(Begin(p.todo[0]), cap != 0)]
       else s' == s && p'.inline == Running(Begin(p.todo[0])) && p'.spawned == p.spawned
  }

  ghost predicate InlineStep(cap: nat, s: nat, p: Proc, s': nat, p': Proc, ran: Started)
    requires p.InFanOut?
    decreases p, 0
  {
    && p.inline.Running?
    && p'.InFanOut? && p'.rest == p.rest && p'.todo == p.todo && p'.spawned == p.spawned
    && if p'.inline.Running?
       then ProcStep(cap, s, p.inline.proc, s', p'.inline.proc, ran)
       else Finished(p.inline.proc) && s' == s && ran == Nothing
  }

  /** A goroutine of this fan-out steps, or leaves the wait group once it gave back its slot. */
  ghost predicate SpawnedStep(cap: nat, s: nat, p: Proc, i: nat, s': nat, p': Proc, ran: Started)
    requires p.InFanOut? && i < |p.spawned|
    decreases p, 0
  {
    && p'.InFanOut? && p'.rest == p.rest && p'.todo == p.todo && p'.inline == p.inline
    && if |p'.spawned| == |p.spawned|
       then p'.spawned == p.spawned[i := p'.spawned[i]] && WorkerStep(cap, s, p.spawned[i], s', p'.spawned[i], ran)
       else p'.spawned == Without(p.spawned, i) && Exits(p.spawned[i]) && s' == s && ran == Nothing
  }

  predicate Exits(w: Worker) {
    Finished(w.proc) && !w.holding
  }

  ghost predicate WorkerStep(cap: nat, s: nat, w: Worker, s': nat, w': Worker, ran: Started)
    decreases w, 0
  {
    || (w.holding && Finished(w.proc) && w' == w.(holding := false) && s' == Released(s) && ran == Nothing)
    || (w'.holding == w.holding && ProcStep(cap, s, w.proc, s', w'.proc, ran))
  }

  // ---------------------------------------------------------------------------
  // What a task tree still has to do
  // ---------------------------------------------------------------------------

  /** Steps left at most, slots held, and how often the task x is still to be started. */
  datatype Tally = Tally(steps: nat, held: nat, pending: nat) {
    function Plus(t: Tally): Tally {
      Tally(steps + t.steps, held + t.held, pending + t.pending)
    }
  }

  const NOTHING := Tally(0, 0, 0)

  function OfBody(b: Body, x: nat): (r: Tally)
    ensures r.held == 0
    decreases b
  {
    match b
    case Return => NOTHING
    case FanOut(batch, rest) => Tally(2, 0, 0).Plus(OfTasks(batch, x)).Plus(OfBody(rest, x))
  }

  function OfTask(t: Task, x: nat): (r: Tally)
    ensures r.held == 0
    decreases t
  {
    Tally(3, 0, Times(Id(t.id), x)).Plus(OfBody(t.body, x))
  }

  function OfTasks(ts: seq<Task>, x: nat): (r: Tally)
    ensures r.held == 0
    decreases ts
  {
    if ts == [] then NOTHING else OfTask(ts[0], x).Plus(OfTasks(ts[1..], x))
  }

  function OfProc(p: Proc, x: nat): Tally
    decreases p
  {
    match p
    case Idle(rest) => OfBody(rest, x)
    case InFanOut(rest, todo, inline, spawned) =>
      Tally(1, 0, 0).Plus(OfBody(rest, x)).Plus(OfTasks(todo, x)).Plus(OfInline(inline, x)).Plus(OfWorkers(spawned, x))
  }

  function OfInline(i: Inline, x: nat): Tally
    decreases i
  {
    if i.NoTask? then NOTHING else Tally(1, 0, 0).Plus(OfProc(i.proc, x))
  }

  function OfWorker(w: Worker, x: nat): Tally
    decreases w
  {
    (if w.holding then Tally(2, 1, 0) else Tally(1, 0, 0)).Plus(OfProc(w.proc, x))
  }

  function OfWorkers(ws: seq<Worker>, x: nat): Tally
    decreases ws
  {
    if ws == [] then NOTHING else OfWorker(ws[0], x).Plus(OfWorkers(ws[1..], x))
  }

  lemma {:induction false} WorkersConcat(a: seq<Worker>, b: seq<Worker>, x: nat)
    ensures OfWorkers(a + b, x) == OfWorkers(a, x).Plus(OfWorkers(b, x))
  {
    if a == [] {
      assert a + b == b;
    } else {
      assert (a + b)[0] == a[0] && (a + b)[1..] == a[1..] + b;
      WorkersConcat(a[1..], b, x);
    }
  }

  lemma OneWorker(w: Worker, x: nat)
    ensures OfWorkers([w], x) == OfWorker(w, x)
  {
    assert OfWorkers([w][1..], x) == NOTHING;
  }

  lemma WorkersSplit(ws: seq<Worker>, i: nat, w: Worker, x: nat)
    requires i < |ws|
    ensures OfWorkers(ws, x) == OfWorker(ws[i], x).Plus(OfWorkers(Without(ws, i), x))
    ensures OfWorkers(ws[i := w], x) == OfWorker(w, x).Plus(OfWorkers(Without(ws, i), x))
  {
    hide OfWorker, OfWorkers;
    assert ws == ws[..i] + ([ws[i]] + ws[i + 1..]);
    assert ws[i := w] == ws[..i] + ([w] + ws[i + 1..]);
    WorkersConcat(ws[..i], [ws[i]] + ws[i + 1..], x);
    WorkersConcat(ws[..i], [w] + ws[i + 1..], x);
    WorkersConcat(ws[..i], ws[i + 1..], x);
    WorkersConcat([ws[i]], ws[i + 1..], x);
    WorkersConcat([w], ws[i + 1..], x);
    OneWorker(ws[i], x);
    OneWorker(w, x);
  }

  /** What a step may do: use up steps, start tasks that were pending, and move the slot count
      exactly as it moves the number of goroutines holding a slot. */
  ghost predicate Accounts(cap: nat, s: nat, before: Tally, s': nat, after: Tally, started: nat) {
    && after.steps < before.steps
    && started + after.pending == before.pending
    && s' + before.held == s + after.held
    && (cap != 0 && s <= cap ==> s' <= cap)
  }

  lemma OfFinished(p: Proc, x: nat)
    requires Finished(p)
    ensures OfProc(p, x) == NOTHING
  {
  }

  lemma {:induction false} ProcStepAccounts(cap: nat, s: nat, p: Proc, s': nat, p': Proc, ran: Started, x: nat)
    requires ProcStep(cap, s, p, s', p', ran) && OfProc(p, x).held <= s
    ensures Accounts(cap, s, OfProc(p, x), s', OfProc(p', x), Times(ran, x))
    decreases p, 2
  {
    hide Dispatch, InlineStep, SpawnedStep, OfProc, OfInline, OfWorkers, Accounts;
    if p.Idle? {
      EntersFanOut(cap, s, p.rest, x);
    } else {
      OfFanOut(p, x);
      if Dispatch(cap, s, p, s', p', ran) {
        DispatchAccounts(cap, s, p, s', p', ran, x);
      } else if InlineStep(cap, s, p, s', p', ran) {
        InlineAccounts(cap, s, p, s', p', ran, x);
      } else if i :| 0 <= i < |p.spawned| && SpawnedStep(cap, s, p, i, s', p', ran) {
        SpawnedAccounts(cap, s, p, i, s', p', ran, x);
      } else {
        LeavesFanOut(cap, s, p, x);
      }
    }
  }

  lemma EntersFanOut(cap: nat, s: nat, b: Body, x: nat)
    requires b.FanOut?
    ensures Accounts(cap, s, OfProc(Idle(b), x), s, OfProc(InFanOut(b.rest, b.batch, NoTask, []), x), Times(Nothing, x))
  {
  }

  lemma LeavesFanOut(cap: nat, s: nat, p: Proc, x: nat)
    requires p.InFanOut? && p.inline == NoTask && p.todo == [] && p.spawned == []
    ensures Accounts(cap, s, OfProc(p, x), s, OfProc(Idle(p.rest), x), Times(Nothing, x))
  {
    assert OfTasks([], x) == OfWorkers([], x) == NOTHING;
  }

  /** Steps that account for themselves do so beside anything else. */
  lemma Beside(cap: nat, s: nat, before: Tally, s': nat, after: Tally, started: nat, other: Tally)
    requires Accounts(cap, s, before, s', after, started)
    ensures Accounts(cap, s, before.Plus(other), s', after.Plus(other), started)
  {
  }

  /** A fan-out's tally, with its inline task or its goroutines taken apart. */
  lemma OfFanOut(p: Proc, x: nat)
    requires p.InFanOut?
    ensures OfProc(p, x) == OfInline(p.inline, x).Plus(Tally(1, 0, 0).Plus(OfBody(p.rest, x)).Plus(OfTasks(p.todo, x)).Plus(OfWorkers(p.spawned, x)))
    ensures OfProc(p, x) == OfWorkers(p.spawned, x).Plus(Tally(1, 0, 0).Plus(OfBody(p.rest, x)).Plus(OfTasks(p.todo, x)).Plus(OfInline(p.inline, x)))
  {
    hide OfBody, OfTasks, OfInline, OfWorkers;
  }

  /** A task before it starts, in a goroutine of its own, and inline. */
  lemma OfStarted(t: Task, holding: bool, x: nat)
    ensures OfTask(t, x) == Tally(3, 0, Times(Id(t.id), x)).Plus(OfBody(t.body, x))
    ensures OfWorker(Worker(Begin(t), holding), x) == (if holding then Tally(2, 1, 0) else Tally(1, 0, 0)).Plus(OfBody(t.body, x))
    ensures OfInline(Running(Begin(t)), x) == Tally(1, 0, 0).Plus(OfBody(t.body, x))
  {
    hide OfBody;
  }

  lemma DispatchAccounts(cap: nat, s: nat, p: Proc, s': nat, p': Proc, ran: Started, x: nat)
    requires p.InFanOut? && Dispatch(cap, s, p, s', p', ran)
    ensures Accounts(cap, s, OfProc(p, x), s', OfProc(p', x), Times(ran, x))
  {
    hide OfBody, OfTasks, OfTask, OfProc, OfWorkers, OfWorker, OfInline;
    var t, w := p.todo[0], Worker(Begin(p.todo[0]), cap != 0);
    NextTask(p.todo, x);
    NoInline(x);
    OfStarted(t, cap != 0, x);
    WorkersConcat(p.spawned, [w], x);
    OneWorker(w, x);
    DispatchParts(p, x);
    DispatchParts(p', x);
  }

  lemma NextTask(ts: seq<Task>, x: nat)
    requires ts != []
    ensures OfTasks(ts, x) == OfTask(ts[0], x).Plus(OfTasks(ts[1..], x))
  {
    hide OfTask;
  }

  lemma DispatchParts(p: Proc, x: nat)
    requires p.InFanOut?
    ensures var b, t, i, w := OfBody(p.rest, x), OfTasks(p.todo, x), OfInline(p.inline, x), OfWorkers(p.spawned, x);
            OfProc(p, x) == Tally(1 + b.steps + t.steps + i.steps + w.steps, b.held + t.held + i.held + w.held, b.pending + t.pending + i.pending + w.pending)
  {
    hide OfBody, OfTasks, OfInline, OfWorkers;
  }

  lemma {:induction false} InlineAccounts(cap: nat, s: nat, p: Proc, s': nat, p': Proc, ran: Started, x: nat)
    requires p.InFanOut? && InlineStep(cap, s, p, s', p', ran) && OfInline(p.inline, x).held <= s
    ensures Accounts(cap, s, OfProc(p, x), s', OfProc(p', x), Times(ran, x))
    decreases p, 1
  {
    hide OfTasks, OfWorkers, OfBody, OfProc, OfInline, ProcStep, Accounts;
    InlineHeld(p.inline.proc, x);
    if p'.inline.Running? {
      ProcStepAccounts(cap, s, p.inline.proc, s', p'.inline.proc, ran, x);
      StillInline(cap, s, p.inline.proc, s', p'.inline.proc, ran, x);
    } else {
      DoneInline(cap, s, p.inline.proc, x);
    }
    OfFanOut(p, x);
    OfFanOut(p', x);
    Beside(cap, s, OfInline(p.inline, x), s', OfInline(p'.inline, x), Times(ran, x),
           Tally(1, 0, 0).Plus(OfBody(p.rest, x)).Plus(OfTasks(p.todo, x)).Plus(OfWorkers(p.spawned, x)));
  }

  lemma InlineHeld(q: Proc, x: nat)
    ensures OfInline(Running(q), x) == Tally(1 + OfProc(q, x).steps, OfProc(q, x).held, OfProc(q, x).pending)
  {
    hide OfProc;
  }

  lemma StillInline(cap: nat, s: nat, q: Proc, s': nat, q': Proc, ran: Started, x: nat)
    requires Accounts(cap, s, OfProc(q, x), s', OfProc(q', x), Times(ran, x))
    ensures Accounts(cap, s, OfInline(Running(q), x), s', OfInline(Running(q'), x), Times(ran, x))
  {
    hide OfProc, OfInline;
    InlineHeld(q, x);
    InlineHeld(q', x);
  }

  lemma NoInline(x: nat)
    ensures OfInline(NoTask, x) == NOTHING
  {
  }

  lemma DoneInline(cap: nat, s: nat, q: Proc, x: nat)
    requires Finished(q)
    ensures Accounts(cap, s, OfInline(Running(q), x), s, OfInline(NoTask, x), 0)
  {
    hide OfProc, OfInline;
    InlineHeld(q, x);
    NoInline(x);
    OfFinished(q, x);
  }

  lemma {:induction false} SpawnedAccounts(cap: nat, s: nat, p: Proc, i: nat, s': nat, p': Proc, ran: Started, x: nat)
    requires p.InFanOut? && i < |p.spawned| && SpawnedStep(cap, s, p, i, s', p', ran) && OfWorkers(p.spawned, x).held <= s
    ensures Accounts(cap, s, OfProc(p, x), s', OfProc(p', x), Times(ran, x))
    decreases p, 1
  {
    hide Accounts, OfTasks, OfWorkers, OfBody, OfProc, OfInline, WorkerStep;
    var w, others := p.spawned[i], OfWorkers(Without(p.spawned, i), x);
    if |p'.spawned| == |p.spawned| {
      WorkersSplit(p.spawned, i, p'.spawned[i], x);
      WorkerStepAccounts(cap, s, w, s', p'.spawned[i], ran, x);
      Beside(cap, s, OfWorker(w, x), s', OfWorker(p'.spawned[i], x), Times(ran, x), others);
    } else {
      WorkersSplit(p.spawned, i, w, x);
      ExitAccounts(cap, s, w, x);
      Beside(cap, s, OfWorker(w, x), s, NOTHING, Times(ran, x), others);
    }
    OfFanOut(p, x);
    OfFanOut(p', x);
    Beside(cap, s, OfWorkers(p.spawned, x), s', OfWorkers(p'.spawned, x), Times(ran, x),
           Tally(1, 0, 0).Plus(OfBody(p.rest, x)).Plus(OfTasks(p.todo, x)).Plus(OfInline(p.inline, x)));
  }

  lemma OfExiting(w: Worker, x: nat)
    requires Exits(w)
    ensures OfWorker(w, x) == Tally(1, 0, 0)
  {
    hide OfProc, OfBody;
    OfFinished(w.proc, x);
  }

  lemma ExitAccounts(cap: nat, s: nat, w: Worker, x: nat)
    requires Exits(w)
    ensures Accounts(cap, s, OfWorker(w, x), s, NOTHING, 0)
  {
    hide OfWorker;
    OfExiting(w, x);
  }

  lemma {:induction false} WorkerStepAccounts(cap: nat, s: nat, w: Worker, s': nat, w': Worker, ran: Started, x: nat)
    ensures WorkerStep(cap, s, w, s', w', ran) && OfWorker(w, x).held <= s ==>
              Accounts(cap, s, OfWorker(w, x), s', OfWorker(w', x), Times(ran, x))
    decreases w, 0
  {
    hide OfProc;
    if WorkerStep(cap, s, w, s', w', ran) && OfWorker(w, x).held <= s && w'.holding == w.holding {
      ProcStepAccounts(cap, s, w.proc, s', w'.proc, ran, x);
    }
  }

  /** Nothing ever blocks for good: a task that is not finished can take a step somewhere in
      its tree, whatever the other users of the limiter hold. */
  lemma {:induction false} ProcMoves(cap: nat, s: nat, p: Proc)
    requires !Finished(p)
    ensures exists s', p', ran :: ProcStep(cap, s, p, s', p', ran)
    decreases p, 1
  {
    match p
    case Idle(rest) =>
      assert ProcStep(cap, s, p, s, InFanOut(rest.rest, rest.batch, NoTask, []), Nothing);
    case InFanOut(rest, todo, inline, spawned) =>
      if inline.Running? {
        InlineMoves(cap, s, p);
      } else if todo != [] {
        DispatchMoves(cap, s, p);
      } else if spawned == [] {
        assert ProcStep(cap, s, p, s, Idle(rest), Nothing);
      } else {
        SpawnedMoves(cap, s, p);
      }
  }

  lemma DispatchMoves(cap: nat, s: nat, p: Proc)
    requires p.InFanOut? && p.inline == NoTask && p.todo != []
    ensures exists s', p', ran :: ProcStep(cap, s, p, s', p', ran)
  {
    var p' := if Free(cap, s)
              then p.(todo := p.todo[1..], spawned := p.spawned + [Worker(Begin(p.todo[0]), cap != 0)])
              else p.(todo := p.todo[1..], inline := Running(Begin(p.todo[0])));
    var s' := if Free(cap, s) then Acquired(cap, s) else s;
    assert Dispatch(cap, s, p, s', p', Id(p.todo[0].id));
    assert ProcStep(cap, s, p, s', p', Id(p.todo[0].id));
  }

  lemma {:induction false} InlineMoves(cap: nat, s: nat, p: Proc)
    requires p.InFanOut? && p.inline.Running?
    ensures exists s', p', ran :: ProcStep(cap, s, p, s', p', ran)
    decreases p, 0
  {
    if Finished(p.inline.proc) {
      assert InlineStep(cap, s, p, s, p.(inline := NoTask), Nothing);
      assert ProcStep(cap, s, p, s, p.(inline := NoTask), Nothing);
    } else {
      ProcMoves(cap, s, p.inline.proc);
      var s', q, ran :| ProcStep(cap, s, p.inline.proc, s', q, ran);
      assert InlineStep(cap, s, p, s', p.(inline := Running(q)), ran);
      assert ProcStep(cap, s, p, s', p.(inline := Running(q)), ran);
    }
  }

  lemma {:induction false} SpawnedMoves(cap: nat, s: nat, p: Proc)
    requires p.InFanOut? && p.spawned != []
    ensures exists s', p', ran :: ProcStep(cap, s, p, s', p', ran)
    decreases p, 0
  {
    var w := p.spawned[0];
    if Exits(w) {
      var p' := p.(spawned := Without(p.spawned, 0));
      assert SpawnedStep(cap, s, p, 0, s, p', Nothing);
      assert ProcStep(cap, s, p, s, p', Nothing);
    } else {
      WorkerMoves(cap, s, w);
      var s', w', ran :| WorkerStep(cap, s, w, s', w', ran);
      var p' := p.(spawned := p.spawned[0 := w']);
      assert SpawnedStep(cap, s, p, 0, s', p', ran);
      assert ProcStep(cap, s, p, s', p', ran);
    }
  }

  lemma {:induction false} WorkerMoves(cap: nat, s: nat, w: Worker)
    requires !Exits(w)
    ensures exists s', w', ran :: WorkerStep(cap, s, w, s', w', ran)
    decreases w, 0
  {
    if Finished(w.proc) {
      assert WorkerStep(cap, s, w, Released(s), w.(holding := false), Nothing);
    } else {
      ProcMoves(cap, s, w.proc);
      var s', q, ran :| ProcStep(cap, s, w.proc, s', q, ran);
      assert WorkerStep(cap, s, w, s', w.(proc := q), ran);
    }
  }

  // ---------------------------------------------------------------------------
  // The limiter shared by fan-outs and background launches
  // ---------------------------------------------------------------------------

  /** The held slots, launches that hold one but have no worker yet, every top-level goroutine,
      and the log of tasks started. */
  datatype System = System(slots: nat, starting: seq<Task>, pool: seq<Worker>, ran: seq<nat>)

  /** What the environment or a goroutine may do. Users start turns; a launch takes a slot or
      is rejected, and then its sub-agent is created or not. */
  datatype Move =
    | Turn(task: Task)
    | Launch(task: Task)
    | Created
    | NotCreated
    | Advance(worker: nat)
    | Leave(worker: nat)

  function Logged(log: seq<nat>, ran: Started): seq<nat> {
    if ran.Nothing? then log else log + [ran.id]
  }

  ghost predicate Next(cap: nat, c: System, m: Move, d: System) {
    match m
    case Turn(t) => d == c.(pool := c.pool + [Worker(Begin(t), false)], ran := c.ran + [t.id])
    case Launch(t) => d == if Free(cap, c.slots) then c.(slots := Acquired(cap, c.slots), starting := c.starting + [t]) else c
    case Created =>
      && c.starting != []
      && d == c.(starting := c.starting[1..], pool := c.pool + [Worker(Begin(c.starting[0]), cap != 0)], ran := c.ran + [c.starting[0].id])
    case NotCreated =>
      && c.starting != []
      && d == c.(starting := c.starting[1..], slots := if cap == 0 then c.slots else Released(c.slots))
    case Leave(k) =>
      k < |c.pool| && Exits(c.pool[k]) && d == c.(pool := Without(c.pool, k))
    case Advance(k) =>
      && k < |c.pool| && |d.pool| == |c.pool| && d.starting == c.starting && d.pool == c.pool[k := d.pool[k]]
      && exists ran :: WorkerStep(cap, c.slots, c.pool[k], d.slots, d.pool[k], ran) && d.ran == Logged(c.ran, ran)
  }

  /** The slots launches hold before they have a worker. */
  function Reserved(cap: nat, c: System): nat {
    if cap == 0 then 0 else |c.starting|
  }

  /** How often the task x has been asked for, less the launches that came to nothing. */
  function Asked(c: System, x: nat): nat {
    multiset(c.ran)[x] + OfWorkers(c.pool, x).pending + OfTasks(c.starting, x).pending
  }

  /** Slots held are exactly those of live goroutines and launches, and within the capacity. */
  ghost predicate Sound(cap: nat, c: System) {
    && (forall x :: c.slots == Reserved(cap, c) + OfWorkers(c.pool, x).held)
    && (cap != 0 ==> c.slots <= cap)
  }

  function Init(): System {
    System(0, [], [], [])
  }

  lemma InitIsSound(cap: nat)
    ensures Sound(cap, Init())
  {
    forall x ensures OfWorkers([], x) == NOTHING {
    }
  }

  /** A top-level goroutine more, with the task it has just started. */
  lemma Joins(pool: seq<Worker>, t: Task, holding: bool, x: nat)
    ensures var before, after := OfWorkers(pool, x), OfWorkers(pool + [Worker(Begin(t), holding)], x);
            && after.held == before.held + (if holding then 1 else 0)
            && after.steps < before.steps + OfTask(t, x).steps
            && after.pending + Times(Id(t.id), x) == before.pending + OfTask(t, x).pending
  {
    hide OfBody, OfTask, OfWorker, OfWorkers;
    WorkersConcat(pool, [Worker(Begin(t), holding)], x);
    OneWorker(Worker(Begin(t), holding), x);
    OfStarted(t, holding, x);
  }

  lemma AdvanceAccounts(cap: nat, c: System, k: nat, d: System, ran: Started, x: nat)
    requires Sound(cap, c) && k < |c.pool| && |d.pool| == |c.pool| && d.pool == c.pool[k := d.pool[k]]
    requires WorkerStep(cap, c.slots, c.pool[k], d.slots, d.pool[k], ran)
    ensures Accounts(cap, c.slots, OfWorkers(c.pool, x), d.slots, OfWorkers(d.pool, x), Times(ran, x))
  {
    hide OfWorkers, OfWorker, WorkerStep, Accounts;
    assert c.slots == Reserved(cap, c) + OfWorkers(c.pool, x).held;
    WorkersSplit(c.pool, k, d.pool[k], x);
    WorkerStepAccounts(cap, c.slots, c.pool[k], d.slots, d.pool[k], ran, x);
    Beside(cap, c.slots, OfWorker(c.pool[k], x), d.slots, OfWorker(d.pool[k], x), Times(ran, x), OfWorkers(Without(c.pool, k), x));
  }

  lemma LeaveAccounts(pool: seq<Worker>, k: nat, x: nat)
    requires k < |pool| && Exits(pool[k])
    ensures OfWorkers(pool, x) == Tally(1, 0, 0).Plus(OfWorkers(Without(pool, k), x))
  {
    hide OfWorkers, OfWorker;
    WorkersSplit(pool, k, pool[k], x);
    OfExiting(pool[k], x);
  }

  /** Every move keeps the slot count right. */
  lemma NextIsSound(cap: nat, c: System, m: Move, d: System)
    requires Sound(cap, c) && Next(cap, c, m, d)
    ensures Sound(cap, d)
  {
    hide OfWorkers, WorkerStep;
    forall x ensures d.slots == Reserved(cap, d) + OfWorkers(d.pool, x).held && (cap != 0 ==> d.slots <= cap) {
      NextIsSoundFor(cap, c, m, d, x);
    }
    assert cap != 0 ==> d.slots <= cap by {
      NextIsSoundFor(cap, c, m, d, 0);
    }
  }

  lemma NextIsSoundFor(cap: nat, c: System, m: Move, d: System, x: nat)
    requires Sound(cap, c) && Next(cap, c, m, d)
    ensures d.slots == Reserved(cap, d) + OfWorkers(d.pool, x).held && (cap != 0 ==> d.slots <= cap)
  {
    hide OfWorkers, OfWorker, OfTasks, OfTask, OfBody, WorkerStep;
    assert c.slots == Reserved(cap, c) + OfWorkers(c.pool, x).held;
    match m
    case Turn(t) => Joins(c.pool, t, false, x);
    case Launch(t) =>
    case Created => Joins(c.pool, c.starting[0], cap != 0, x);
    case NotCreated =>
    case Leave(k) => LeaveAccounts(c.pool, k, x);
    case Advance(k) =>
      var ran :| WorkerStep(cap, c.slots, c.pool[k], d.slots, d.pool[k], ran) && d.ran == Logged(c.ran, ran);
      AdvanceAccounts(cap, c, k, d, ran, x);
  }

  /** What a move adds to the demand for the task x: a turn or an accepted launch asks for a
      task tree, and a sub-agent that cannot be created takes its tree back. */
  function Demand(cap: nat, c: System, m: Move, x: nat): int {
    if m.Turn? then OfTask(m.task, x).pending
    else if m.Launch? && Free(cap, c.slots) then OfTask(m.task, x).pending
    else if m.NotCreated? && c.starting != [] then 0 - OfTask(c.starting[0], x).pending
    else 0
  }

  /** Nothing else changes it: no task is lost and none starts twice. */
  lemma NextKeepsDemand(cap: nat, c: System, m: Move, d: System, x: nat)
    requires Sound(cap, c) && Next(cap, c, m, d)
    ensures Asked(d, x) == Asked(c, x) + Demand(cap, c, m, x)
  {
    hide OfWorkers, OfTasks, OfTask, WorkerStep, ProcStep, Exits, Free;
    match m
    case Turn(t) => Joins(c.pool, t, false, x);
    case Launch(t) => TasksSnoc(c.starting, t, x);
    case Created =>
      NextTask(c.starting, x);
      Joins(c.pool, c.starting[0], cap != 0, x);
    case NotCreated => NextTask(c.starting, x);
    case Leave(k) => LeaveAccounts(c.pool, k, x);
    case Advance(k) =>
      var ran :| WorkerStep(cap, c.slots, c.pool[k], d.slots, d.pool[k], ran) && d.ran == Logged(c.ran, ran);
      AdvanceAccounts(cap, c, k, d, ran, x);
  }

  lemma {:induction false} TasksSnoc(ts: seq<Task>, t: Task, x: nat)
    ensures OfTasks(ts + [t], x) == OfTasks(ts, x).Plus(OfTask(t, x))
  {
    hide OfTask;
    if ts == [] {
      assert [t][1..] == [];
    } else {
      assert (ts + [t])[0] == ts[0] && (ts + [t])[1..] == ts[1..] + [t];
      TasksSnoc(ts[1..], t, x);
    }
  }

  // Some goroutine holds a slot, anywhere in a tree of fan-outs

  predicate ProcHolds(p: Proc)
    decreases p
  {
    p.InFanOut? && (InlineHolds(p.inline) || WorkersHold(p.spawned))
  }

  predicate InlineHolds(i: Inline)
    decreases i
  {
    i.Running? && ProcHolds(i.proc)
  }

  predicate WorkerHolds(w: Worker)
    decreases w
  {
    w.holding || ProcHolds(w.proc)
  }

  predicate WorkersHold(ws: seq<Worker>)
    decreases ws
  {
    ws != [] && (WorkerHolds(ws[0]) || WorkersHold(ws[1..]))
  }

  lemma {:induction false} ProcHoldsCounted(p: Proc, x: nat)
    ensures ProcHolds(p) <==> OfProc(p, x).held > 0
    decreases p
  {
    if p.InFanOut? {
      InlineHoldsCounted(p.inline, x);
      WorkersHoldCounted(p.spawned, x);
    }
  }

  lemma {:induction false} InlineHoldsCounted(i: Inline, x: nat)
    ensures InlineHolds(i) <==> OfInline(i, x).held > 0
    decreases i
  {
    if i.Running? {
      ProcHoldsCounted(i.proc, x);
    }
  }

  lemma {:induction false} WorkerHoldsCounted(w: Worker, x: nat)
    ensures WorkerHolds(w) <==> OfWorker(w, x).held > 0
    decreases w
  {
    ProcHoldsCounted(w.proc, x);
  }

  lemma {:induction false} WorkersHoldCounted(ws: seq<Worker>, x: nat)
    ensures WorkersHold(ws) <==> OfWorkers(ws, x).held > 0
    decreases ws
  {
    if ws != [] {
      WorkerHoldsCounted(ws[0], x);
      WorkersHoldCounted(ws[1..], x);
    }
  }

  /** A goroutine that holds a slot, however deep in fan-outs, and a launch that holds one, find
      a slot to give back; and there is one only while somebody holds it. */
  lemma ReleaseFindsSlot(cap: nat, c: System)
    requires Sound(cap, c)
    ensures c.slots > 0 <==> WorkersHold(c.pool) || (cap != 0 && c.starting != [])
  {
    assert c.slots == Reserved(cap, c) + OfWorkers(c.pool, 0).held;
    WorkersHoldCounted(c.pool, 0);
  }

  /** A goroutine is another, or runs somewhere in its fan-outs. */
  predicate InWorker(w: Worker, v: Worker)
    decreases v
  {
    w == v || InProc(w, v.proc)
  }

  predicate InProc(w: Worker, p: Proc)
    decreases p
  {
    p.InFanOut? && (InInline(w, p.inline) || InWorkers(w, p.spawned))
  }

  predicate InInline(w: Worker, i: Inline)
    decreases i
  {
    i.Running? && InProc(w, i.proc)
  }

  predicate InWorkers(w: Worker, ws: seq<Worker>)
    decreases ws
  {
    ws != [] && (InWorker(w, ws[0]) || InWorkers(w, ws[1..]))
  }

  lemma {:induction false} InProcHolds(w: Worker, p: Proc)
    ensures w.holding && InProc(w, p) ==> ProcHolds(p)
    decreases p
  {
    if p.InFanOut? {
      InInlineHolds(w, p.inline);
      InWorkersHold(w, p.spawned);
    }
  }

  lemma {:induction false} InInlineHolds(w: Worker, i: Inline)
    ensures w.holding && InInline(w, i) ==> InlineHolds(i)
    decreases i
  {
    if i.Running? {
      InProcHolds(w, i.proc);
    }
  }

  lemma {:induction false} InWorkersHold(w: Worker, ws: seq<Worker>)
    ensures w.holding && InWorkers(w, ws) ==> WorkersHold(ws)
    decreases ws
  {
    if ws != [] {
      InWorkerHolds(w, ws[0]);
      InWorkersHold(w, ws[1..]);
    }
  }

  lemma {:induction false} InWorkerHolds(w: Worker, v: Worker)
    ensures w.holding && InWorker(w, v) ==> WorkerHolds(v)
    decreases v
  {
    InProcHolds(w, v.proc);
  }

  /** So no goroutine, in whatever fan-out, releases in vain: one that holds a slot finds it,
      and giving it up lowers the count by one. */
  lemma NoVainRelease(cap: nat, c: System, w: Worker)
    requires Sound(cap, c)
    ensures w.holding && InWorkers(w, c.pool) ==> Released(c.slots) == c.slots - 1
  {
    InWorkersHold(w, c.pool);
    ReleaseFindsSlot(cap, c);
  }

  // How many goroutines hold a slot, anywhere in a tree of fan-outs

  function HoldersInProc(p: Proc): nat
    decreases p
  {
    if p.Idle? then 0
    else (if p.inline.Running? then HoldersInProc(p.inline.proc) else 0) + HoldersAmong(p.spawned)
  }

  function HoldersAmong(ws: seq<Worker>): nat
    decreases ws
  {
    if ws == [] then 0 else HoldersInWorker(ws[0]) + HoldersAmong(ws[1..])
  }

  function HoldersInWorker(w: Worker): nat
    decreases w
  {
    (if w.holding then 1 else 0) + HoldersInProc(w.proc)
  }

  /** The goroutines and the launches that hold a slot; without a limit launches hold none. */
  function Holders(cap: nat, c: System): nat {
    HoldersAmong(c.pool) + if cap > 0 then |c.starting| else 0
  }

  lemma {:induction false} HoldersInProcCounted(p: Proc, x: nat)
    ensures HoldersInProc(p) == OfProc(p, x).held
    decreases p
  {
    if p.InFanOut? {
      if p.inline.Running? {
        HoldersInProcCounted(p.inline.proc, x);
      }
      HoldersAmongCounted(p.spawned, x);
    }
  }

  lemma {:induction false} HoldersAmongCounted(ws: seq<Worker>, x: nat)
    ensures HoldersAmong(ws) == OfWorkers(ws, x).held
    decreases ws
  {
    if ws != [] {
      HoldersInWorkerCounted(ws[0], x);
      HoldersAmongCounted(ws[1..], x);
    }
  }

  lemma {:induction false} HoldersInWorkerCounted(w: Worker, x: nat)
    ensures HoldersInWorker(w) == OfWorker(w, x).held
    decreases w
  {
    HoldersInProcCounted(w.proc, x);
  }

  /** The slots taken are those that goroutines and launches hold, never more than there are. */
  lemma SlotsAreHolders(cap: nat, c: System)
    requires Sound(cap, c)
    ensures c.slots == Holders(cap, c) && (cap > 0 ==> Holders(cap, c) <= cap)
  {
    HoldersAmongCounted(c.pool, 0);
    assert c.slots == Reserved(cap, c) + OfWorkers(c.pool, 0).held;
  }

  /** A launch is rejected exactly when as many hold a slot as there are; else it holds one more,
      if there is a limit. */
  lemma LaunchIsRejectedExactlyIf(cap: nat, c: System, t: Task, d: System)
    requires Sound(cap, c) && Next(cap, c, Launch(t), d)
    ensures d == c <==> cap > 0 && Holders(cap, c) == cap
    ensures d != c ==> d.starting == c.starting + [t] && d.pool == c.pool && d.ran == c.ran
    ensures d != c ==> Holders(cap, d) == Holders(cap, c) + if cap > 0 then 1 else 0
  {
    SlotsAreHolders(cap, c);
    assert c.starting + [t] != c.starting;
  }

  /** A task of a fan-out, anywhere, runs inline exactly when as many hold a slot as there are;
      else it gets a goroutine, which holds one if there is a limit. */
  lemma TaskRunsInlineExactlyIf(cap: nat, c: System, p: Proc, s': nat, p': Proc, ran: Started)
    requires Sound(cap, c) && p.InFanOut? && Dispatch(cap, c.slots, p, s', p', ran)
    ensures p'.inline.Running? <==> cap > 0 && Holders(cap, c) == cap
    ensures p'.inline.Running? ==> p'.inline.proc == Idle(p.todo[0].body) && p'.spawned == p.spawned && s' == c.slots
    ensures !p'.inline.Running? ==>
              && p'.spawned == p.spawned + [Worker(Idle(p.todo[0].body), cap > 0)]
              && s' == c.slots + if cap > 0 then 1 else 0
  {
    SlotsAreHolders(cap, c);
  }

  predicate Internal(m: Move) {
    m.Created? || m.NotCreated? || m.Advance? || m.Leave?
  }

  predicate AtRest(c: System) {
    c.pool == [] && c.starting == []
  }

  function StepsLeft(c: System): nat {
    OfWorkers(c.pool, 0).steps + OfTasks(c.starting, 0).steps
  }

  /** Left to itself the system comes to rest: every internal move uses up a step... */
  lemma InternalMovesRunOut(cap: nat, c: System, m: Move, d: System)
    requires Sound(cap, c) && Next(cap, c, m, d) && Internal(m)
    ensures StepsLeft(d) < StepsLeft(c)
  {
    hide OfWorkers, OfTasks, OfTask, OfBody, OfWorker, WorkerStep;
    match m
    case Created =>
      NextTask(c.starting, 0);
      Joins(c.pool, c.starting[0], cap != 0, 0);
    case NotCreated =>
      NextTask(c.starting, 0);
      OfStarted(c.starting[0], false, 0);
    case Leave(k) => LeaveAccounts(c.pool, k, 0);
    case Advance(k) =>
      var ran :| WorkerStep(cap, c.slots, c.pool[k], d.slots, d.pool[k], ran) && d.ran == Logged(c.ran, ran);
      AdvanceAccounts(cap, c, k, d, ran, 0);
  }

  /** ...and until it is at rest some goroutine can move: there is no deadlock. */
  lemma NoDeadlock(cap: nat, c: System)
    requires !AtRest(c)
    ensures exists m, d :: Internal(m) && Next(cap, c, m, d)
  {
    if c.starting != [] {
      var d := c.(starting := c.starting[1..], pool := c.pool + [Worker(Begin(c.starting[0]), cap != 0)], ran := c.ran + [c.starting[0].id]);
      assert Next(cap, c, Created, d);
    } else if Exits(c.pool[0]) {
      assert Next(cap, c, Leave(0), c.(pool := Without(c.pool, 0)));
    } else {
      WorkerMoves(cap, c.slots, c.pool[0]);
      var s', w', ran :| WorkerStep(cap, c.slots, c.pool[0], s', w', ran);
      var d := System(s', c.starting, c.pool[0 := w'], Logged(c.ran, ran));
      assert d.pool[0] == w';
      assert Next(cap, c, Advance(0), d);
    }
  }

  /** At rest no slot is held, and every task asked for has run exactly as often as asked. */
  lemma AtRestAllRan(cap: nat, c: System, x: nat)
    requires Sound(cap, c) && AtRest(c)
    ensures c.slots == 0 && multiset(c.ran)[x] == Asked(c, x)
  {
    assert c.slots == Reserved(cap, c) + OfWorkers(c.pool, x).held;
    assert OfWorkers([], x) == NOTHING && OfTasks([], x) == NOTHING;
  }

  /** How often a task occurs in a tree: as its root, or in one of its batches. */
  function Occurs(t: Task, x: nat): nat
    decreases t
  {
    (if t.id == x then 1 else 0) + OccursIn(t.body, x)
  }

  function OccursIn(b: Body, x: nat): nat
    decreases b
  {
    if b.Return? then 0 else OccursAmong(b.batch, x) + OccursIn(b.rest, x)
  }

  function OccursAmong(ts: seq<Task>, x: nat): nat
    decreases ts
  {
    if ts == [] then 0 else Occurs(ts[0], x) + OccursAmong(ts[1..], x)
  }

  lemma {:induction false} OccursCounted(t: Task, x: nat)
    ensures OfTask(t, x).pending == Occurs(t, x)
    decreases t
  {
    hide OfBody, OccursIn;
    OccursInCounted(t.body, x);
    assert OfTask(t, x) == Tally(3, 0, Times(Id(t.id), x)).Plus(OfBody(t.body, x));
  }

  lemma {:induction false} OccursInCounted(b: Body, x: nat)
    ensures OfBody(b, x).pending == OccursIn(b, x)
    decreases b
  {
    hide OfTasks, OccursAmong;
    if b.FanOut? {
      OccursAmongCounted(b.batch, x);
      OccursInCounted(b.rest, x);
    }
  }

  lemma {:induction false} OccursAmongCounted(ts: seq<Task>, x: nat)
    ensures OfTasks(ts, x).pending == OccursAmong(ts, x)
    decreases ts
  {
    hide OfTask, Occurs;
    if ts != [] {
      OccursCounted(ts[0], x);
      OccursAmongCounted(ts[1..], x);
    }
  }

  /** A turn, or a launch that is accepted, asks for every task of its tree; a launch that comes to
      nothing takes them back; nothing else asks for any. */
  lemma DemandIs(cap: nat, c: System, m: Move, x: nat)
    requires Sound(cap, c)
    ensures m.Turn? ==> Demand(cap, c, m, x) == Occurs(m.task, x)
    ensures m.Launch? ==> Demand(cap, c, m, x) == if cap > 0 && Holders(cap, c) == cap then 0 else Occurs(m.task, x)
    ensures m.NotCreated? && c.starting != [] ==> Demand(cap, c, m, x) + Occurs(c.starting[0], x) == 0
    ensures m.Created? || m.Advance? || m.Leave? ==> Demand(cap, c, m, x) == 0
  {
    SlotsAreHolders(cap, c);
    hide OfTask, Occurs, Holders, Sound;
    match m {
      case Turn(t) => OccursCounted(t, x);
      case Launch(t) => OccursCounted(t, x);
      case NotCreated =>
        if c.starting != [] {
          OccursCounted(c.starting[0], x);
        }
      case _ =>
    }
  }

  // ---------------------------------------------------------------------------
  // Whole runs
  // ---------------------------------------------------------------------------

  ghost predicate IsRun(cap: nat, cs: seq<System>, ms: seq<Move>) {
    && |cs| == |ms| + 1
    && forall k | 0 <= k < |ms| :: Next(cap, cs[k], ms[k], cs[k + 1])
  }

  /** The demand for the task x over the first n moves of a run. */
  ghost function DemandOver(cap: nat, cs: seq<System>, ms: seq<Move>, n: nat, x: nat): int
    requires |cs| == |ms| + 1 && n <= |ms|
  {
    if n == 0 then 0 else DemandOver(cap, cs, ms, n - 1, x) + Demand(cap, cs[n - 1], ms[n - 1], x)
  }

  lemma NothingAsked(x: nat)
    ensures Asked(Init(), x) == 0
  {
    assert OfWorkers([], x) == NOTHING && OfTasks([], x) == NOTHING;
  }

  /** Along every run, under every schedule, slots are counted right and each task asked for
      is pending or has run, never both and never twice. */
  lemma {:induction false} RunIsSound(cap: nat, cs: seq<System>, ms: seq<Move>, n: nat, x: nat)
    requires IsRun(cap, cs, ms) && cs[0] == Init() && n <= |ms|
    ensures Sound(cap, cs[n]) && Asked(cs[n], x) == DemandOver(cap, cs, ms, n, x)
  {
    hide Next, Sound, Asked, Demand;
    if n == 0 {
      InitIsSound(cap);
      NothingAsked(x);
    } else {
      RunIsSound(cap, cs, ms, n - 1, x);
      assert Next(cap, cs[n - 1], ms[n - 1], cs[n]);
      NextIsSound(cap, cs[n - 1], ms[n - 1], cs[n]);
      NextKeepsDemand(cap, cs[n - 1], ms[n - 1], cs[n], x);
    }
  }

  /** A run left to itself ends, and where it cannot go on nothing holds a slot and every task
      has run exactly as often as the run asked for it. */
  lemma StuckRunIsDone(cap: nat, cs: seq<System>, ms: seq<Move>, x: nat)
    requires IsRun(cap, cs, ms) && cs[0] == Init()
    requires forall m, d :: Internal(m) ==> !Next(cap, cs[|ms|], m, d)
    ensures AtRest(cs[|ms|]) && cs[|ms|].slots == 0
    ensures multiset(cs[|ms|].ran)[x] == DemandOver(cap, cs, ms, |ms|, x)
  {
    RunIsSound(cap, cs, ms, |ms|, x);
    if !AtRest(cs[|ms|]) {
      NoDeadlock(cap, cs[|ms|]);
    }
    AtRestAllRan(cap, cs[|ms|], x);
  }

  lemma {:induction false} InternalRunIsBounded(cap: nat, cs: seq<System>, ms: seq<Move>)
    requires IsRun(cap, cs, ms) && Sound(cap, cs[0]) && forall m | m in ms :: Internal(m)
    ensures |ms| <= StepsLeft(cs[0])
    decreases |ms|
  {
    if ms != [] {
      assert ms[0] in ms && Next(cap, cs[0], ms[0], cs[1]);
      NextIsSound(cap, cs[0], ms[0], cs[1]);
      InternalMovesRunOut(cap, cs[0], ms[0], cs[1]);
      assert forall k | 0 <= k < |ms[1..]| :: ms[1..][k] == ms[k + 1] && cs[1..][k] == cs[k + 1];
      InternalRunIsBounded(cap, cs[1..], ms[1..]);
    }
  }
}
