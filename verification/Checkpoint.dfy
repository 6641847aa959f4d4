/** Turn checkpoints: per-turn snapshots of the files a turn touches, and undoing turns. */
module Checkpoint {
  import opened Wrappers

  /** A workspace as a flat map from resolved path to content. */
  type Disk<C> = map<string, C>

  /** A file as it was before the turn first touched it: its content, or its absence. */
  type Snapshots<C> = map<string, Option<C>>

  /** A session's in-flight checkpoint and its committed ones, newest last. */
  datatype Session<C> = Session(active: Option<Snapshots<C>>, history: seq<Snapshots<C>>)

  const MAX_CHECKPOINTS := 100

  function Capture<C>(disk: Disk<C>, path: string): Option<C> {
    if path in disk then Some(disk[path]) else None
  }

  /** The disk with every snapshotted file put back and every file it lacked removed. */
  function Restored<C>(files: Snapshots<C>, disk: Disk<C>): (d: Disk<C>)
    ensures forall p :: Capture(d, p) == if p in files then files[p] else Capture(disk, p)
  {
    map p | p in disk.Keys + files.Keys && (p in files ==> files[p].Some?) :: if p in files then files[p].value else disk[p]
  }

  lemma DiskExt<C>(d: Disk<C>, e: Disk<C>)
    requires forall p :: Capture(d, p) == Capture(e, p)
    ensures d == e
  {
    forall p ensures p in d <==> p in e {
      assert Capture(d, p) == Capture(e, p);
    }
    forall p | p in d ensures d[p] == e[p] {
      assert Capture(d, p) == Capture(e, p);
    }
  }

  function StateOf<C>(sessions: map<string, Session<C>>, id: string): Session<C> {
    if id in sessions then sessions[id] else Session(None, [])
  }

  /** A path's first snapshot in a turn wins. */
  function Snapped<C>(s: Session<C>, path: string, disk: Disk<C>): Session<C> {
    if s.active.None? || path in s.active.value then s
    else s.(active := Some(s.active.value[path := Capture(disk, path)]))
  }

  /** A turn that touched nothing leaves no checkpoint; the oldest fall off the back. */
  function Committed<C>(s: Session<C>): Session<C> {
    if s.active.None? then s
    else if s.active.value == map[] then s.(active := None)
    else Session(None, Newest(s.history + [s.active.value]))
  }

  function Newest<T>(s: seq<T>): seq<T> {
    if |s| > MAX_CHECKPOINTS then s[|s| - MAX_CHECKPOINTS..] else s
  }

  /** Several checkpoints as one: per file the oldest snapshot wins. */
  function Merged<C>(cps: seq<Snapshots<C>>): Snapshots<C> {
    if cps == [] then map[] else Merged(cps[1..]) + cps[0]
  }

  /** Undoing checkpoints one by one, newest first. */
  function Unwound<C>(cps: seq<Snapshots<C>>, disk: Disk<C>): Disk<C> {
    if cps == [] then disk else Restored(cps[0], Unwound(cps[1..], disk))
  }

  /** Restoring a merge is undoing its checkpoints one by one. */
  lemma {:induction false} MergedUnwinds<C>(cps: seq<Snapshots<C>>, disk: Disk<C>)
    ensures Restored(Merged(cps), disk) == Unwound(cps, disk)
  {
    if cps == [] {
      DiskExt(Restored(Merged(cps), disk), disk);
    } else {
      MergedUnwinds(cps[1..], disk);
      DiskExt(Restored(Merged(cps), disk), Unwound(cps, disk));
    }
  }

  // ---------------------------------------------------------------------------
  // Runs of turns, undos and rewinds
  // ---------------------------------------------------------------------------

  /** A tool's file mutation, always preceded by a snapshot of its path; it may fail. */
  datatype Edit<C> = Write(path: string, content: C) | Remove(path: string) | Failed(path: string)

  datatype Action<C> = Turn(edits: seq<Edit<C>>) | Undo | Rewind(turns: int)

  /** The workspace and the session's checkpoints. */
  datatype Machine<C> = Machine(disk: Disk<C>, session: Session<C>)

  function Edited<C>(disk: Disk<C>, e: Edit<C>): Disk<C> {
    match e
    case Write(p, c) => disk[p := c]
    case Remove(p) => disk - {p}
    case Failed(_) => disk
  }

  function EditAll<C>(m: Machine<C>, edits: seq<Edit<C>>): Machine<C>
    decreases |edits|
  {
    if edits == [] then m
    else
      var e := edits[0];
      EditAll(Machine(Edited(m.disk, e), Snapped(m.session, e.path, m.disk)), edits[1..])
  }

  /** How many turns a rewind reverts. */
  function Reach(turns: int, recorded: nat): nat {
    if turns <= 0 || turns > recorded then recorded else turns
  }

  function Step<C>(m: Machine<C>, a: Action<C>): Machine<C> {
    var h := m.session.history;
    match a
    case Turn(edits) =>
      var ended := EditAll(m.(session := Session(Some(map[]), h)), edits);
      ended.(session := Committed(ended.session))
    case Undo =>
      if h == [] then m
      else Machine(Restored(h[|h| - 1], m.disk), m.session.(history := h[..|h| - 1]))
    case Rewind(turns) =>
      if h == [] then m
      else
        var keep := |h| - Reach(turns, |h|);
        Machine(Restored(Merged(h[keep..]), m.disk), m.session.(history := h[..keep]))
  }

  function Run<C>(m: Machine<C>, actions: seq<Action<C>>): Machine<C>
    decreases |actions|
  {
    if actions == [] then m else Run(Step(m, actions[0]), actions[1..])
  }

  /** What undo promises: the workspace, and a copy of it from before each undoable turn. */
  datatype Ideal<C> = Ideal(disk: Disk<C>, past: seq<Disk<C>>)

  function IdealStep<C>(i: Ideal<C>, a: Action<C>): Ideal<C> {
    match a
    case Turn(edits) =>
      if edits == [] then i else Ideal(ApplyEdits(i.disk, edits), Newest(i.past + [i.disk]))
    case Undo =>
      if i.past == [] then i else Ideal(i.past[|i.past| - 1], i.past[..|i.past| - 1])
    case Rewind(turns) =>
      if i.past == [] then i
      else var keep := |i.past| - Reach(turns, |i.past|); Ideal(i.past[keep], i.past[..keep])
  }

  function ApplyEdits<C>(disk: Disk<C>, edits: seq<Edit<C>>): Disk<C>
    decreases |edits|
  {
    if edits == [] then disk else ApplyEdits(Edited(disk, edits[0]), edits[1..])
  }

  function IdealRun<C>(i: Ideal<C>, actions: seq<Action<C>>): Ideal<C>
    decreases |actions|
  {
    if actions == [] then i else IdealRun(IdealStep(i, actions[0]), actions[1..])
  }

  /** The checkpoints lead back, turn by turn, through the kept copies. */
  ghost predicate Leads<C>(history: seq<Snapshots<C>>, past: seq<Disk<C>>, disk: Disk<C>) {
    && |history| == |past|
    && forall k | 0 <= k < |past| :: LeadsBack(history, past, disk, k)
  }

  /** Checkpoint k, restored over what followed its turn, gives the disk before it. */
  ghost predicate LeadsBack<C>(history: seq<Snapshots<C>>, past: seq<Disk<C>>, disk: Disk<C>, k: nat)
    requires k < |history| == |past|
  {
    Restored(history[k], if k + 1 < |past| then past[k + 1] else disk) == past[k]
  }

  ghost predicate Refines<C>(m: Machine<C>, i: Ideal<C>) {
    && m.disk == i.disk
    && Leads(m.session.history, i.past, m.disk)
    && |i.past| <= MAX_CHECKPOINTS
  }

  /** Editing under an active checkpoint never changes what restoring it would give. */
  lemma {:induction false} EditsKeepTurnStart<C>(m: Machine<C>, edits: seq<Edit<C>>)
    requires m.session.active.Some?
    ensures var e := EditAll(m, edits);
            && e.session.active.Some? && e.session.history == m.session.history
            && e.disk == ApplyEdits(m.disk, edits)
            && Restored(e.session.active.value, e.disk) == Restored(m.session.active.value, m.disk)
            && (edits != [] || m.session.active.value != map[] ==> e.session.active.value != map[])
    decreases |edits|
  {
    if edits != [] {
      var next := Machine(Edited(m.disk, edits[0]), Snapped(m.session, edits[0].path, m.disk));
      EditKeepsTurnStart(m.session, m.disk, edits[0].path, next.disk);
      EditsKeepTurnStart(next, edits[1..]);
    }
  }

  /** Whatever becomes of one snapshotted file, restoring gives the same disk. */
  lemma EditKeepsTurnStart<C>(s: Session<C>, disk: Disk<C>, path: string, next: Disk<C>)
    requires s.active.Some?
    requires forall p | p != path :: Capture(next, p) == Capture(disk, p)
    ensures var snapped := Snapped(s, path, disk);
            && snapped.active.Some? && path in snapped.active.value
            && Restored(snapped.active.value, next) == Restored(s.active.value, disk)
  {
    DiskExt(Restored(Snapped(s, path, disk).active.value, next), Restored(s.active.value, disk));
  }

  lemma {:induction false} UnwindsToPast<C>(history: seq<Snapshots<C>>, past: seq<Disk<C>>, disk: Disk<C>, k: nat)
    requires Leads(history, past, disk) && k <= |past|
    ensures Unwound(history[k..], disk) == if k < |past| then past[k] else disk
    decreases |past| - k
  {
    if k < |past| {
      assert LeadsBack(history, past, disk, k);
      UnwindsToPast(history, past, disk, k + 1);
      assert history[k..][0] == history[k] && history[k..][1..] == history[k + 1..];
    }
  }

  lemma LeadsFromEarlier<C>(history: seq<Snapshots<C>>, past: seq<Disk<C>>, disk: Disk<C>, k: nat)
    requires Leads(history, past, disk) && k < |past|
    ensures Leads(history[..k], past[..k], past[k])
  {
    forall j | 0 <= j < k ensures LeadsBack(history[..k], past[..k], past[k], j) {
      assert LeadsBack(history, past, disk, j);
    }
  }

  lemma LeadsAfterTurn<C>(history: seq<Snapshots<C>>, past: seq<Disk<C>>, disk: Disk<C>, files: Snapshots<C>, next: Disk<C>)
    requires Leads(history, past, disk) && Restored(files, next) == disk
    ensures Leads(Newest(history + [files]), Newest(past + [disk]), next)
  {
    var h, p := history + [files], past + [disk];
    assert Leads(h, p, next) by {
      forall k | 0 <= k < |p| ensures LeadsBack(h, p, next, k) {
        if k < |past| {
          assert LeadsBack(history, past, disk, k);
        }
      }
    }
    var drop := |p| - MAX_CHECKPOINTS;
    if drop > 0 {
      forall k | 0 <= k < |p| - drop ensures LeadsBack(h[drop..], p[drop..], next, k) {
        assert LeadsBack(h, p, next, drop + k);
      }
    }
  }

  lemma StepRefines<C>(m: Machine<C>, i: Ideal<C>, a: Action<C>)
    requires Refines(m, i)
    ensures Refines(Step(m, a), IdealStep(i, a))
  {
    var h := m.session.history;
    match a
    case Turn(edits) =>
      var begun := m.(session := Session(Some(map[]), h));
      EditsKeepTurnStart(begun, edits);
      DiskExt(Restored(map[], m.disk), m.disk);
      var ended := EditAll(begun, edits);
      if edits != [] {
        LeadsAfterTurn(h, i.past, m.disk, ended.session.active.value, ended.disk);
      }
    case Undo =>
      if h != [] {
        assert LeadsBack(h, i.past, m.disk, |h| - 1);
        LeadsFromEarlier(h, i.past, m.disk, |h| - 1);
      }
    case Rewind(turns) =>
      if h != [] {
        var keep := |h| - Reach(turns, |h|);
        UnwindsToPast(h, i.past, m.disk, keep);
        MergedUnwinds(h[keep..], m.disk);
        LeadsFromEarlier(h, i.past, m.disk, keep);
      }
  }

  /** Over every run, undo and rewind bring back exactly the disk from before the turns they
      revert, for as many turns as are kept. */
  lemma {:induction false} RunRefines<C>(m: Machine<C>, i: Ideal<C>, actions: seq<Action<C>>)
    requires Refines(m, i)
    ensures Refines(Run(m, actions), IdealRun(i, actions))
    decreases |actions|
  {
    if actions != [] {
      StepRefines(m, i, actions[0]);
      RunRefines(Step(m, actions[0]), IdealStep(i, actions[0]), actions[1..]);
    }
  }

  /** A run from a fresh session, whatever the workspace holds. */
  lemma EveryRunUndoes<C>(disk: Disk<C>, actions: seq<Action<C>>)
    ensures var m, i := Run(Machine(disk, Session(None, [])), actions), IdealRun(Ideal(disk, []), actions);
            m.disk == i.disk && |m.session.history| == |i.past| <= MAX_CHECKPOINTS
  {
    RunRefines(Machine(disk, Session(None, [])), Ideal(disk, []), actions);
  }

  function Undos<C>(n: nat): seq<Action<C>> {
    seq(n, _ => Undo)
  }

  /** Rewinding n turns is undoing n times. */
  lemma RewindIsUndos<C>(m: Machine<C>, n: nat)
    requires 0 < n <= |m.session.history|
    ensures Step(m, Rewind(n)) == Run(m, Undos(n))
  {
    hide Run, Unwound, Undos;
    var h := m.session.history;
    var keep := |h| - n;
    MergedUnwinds(h[keep..], m.disk);
    UndosUnwind(m, n);
  }

  lemma {:induction false} UndosUnwind<C>(m: Machine<C>, n: nat)
    requires n <= |m.session.history|
    ensures var h := m.session.history;
            Run(m, Undos(n)) == Machine(Unwound(h[|h| - n..], m.disk), m.session.(history := h[..|h| - n]))
    decreases n
  {
    hide Run, Unwound, Undos, Restored, Step;
    if n == 0 {
      NoUndo(m);
    } else {
      FirstUndo(m, n);
      var h := m.session.history;
      var next := Step(m, Undo);
      UndosUnwind(next, n - 1);
      DropLast(h, n);
      UnwoundSnoc(h[|h| - n..][..n - 1], h[|h| - 1], m.disk);
    }
  }

  lemma NoUndo<C>(m: Machine<C>)
    ensures var h := m.session.history;
            Run(m, Undos(0)) == Machine(Unwound(h[|h|..], m.disk), m.session.(history := h[..|h|]))
  {
    var h := m.session.history;
    assert h[..|h|] == h;
  }

  lemma FirstUndo<C>(m: Machine<C>, n: nat)
    requires 0 < n <= |m.session.history|
    ensures Run(m, Undos(n)) == Run(Step(m, Undo), Undos(n - 1))
    ensures var h := m.session.history;
            Step(m, Undo) == Machine(Restored(h[|h| - 1], m.disk), m.session.(history := h[..|h| - 1]))
  {
    hide Restored;
    assert Undos<C>(n)[1..] == Undos(n - 1);
  }

  lemma DropLast<T>(h: seq<T>, n: nat)
    requires 0 < n <= |h|
    ensures var front, tail := h[..|h| - 1], h[|h| - n..];
            && front[|front| - (n - 1)..] == tail[..n - 1] && front[..|front| - (n - 1)] == h[..|h| - n]
            && tail == tail[..n - 1] + [h[|h| - 1]]
  {
  }

  lemma {:induction false} UnwoundSnoc<C>(cps: seq<Snapshots<C>>, last: Snapshots<C>, disk: Disk<C>)
    ensures Unwound(cps + [last], disk) == Unwound(cps, Restored(last, disk))
  {
    if cps == [] {
      assert Unwound([last], disk) == Restored(last, Unwound([], disk));
    } else {
      assert (cps + [last])[1..] == cps[1..] + [last];
      UnwoundSnoc(cps[1..], last, disk);
    }
  }

  // ---------------------------------------------------------------------------
  // How far back undo reaches
  // ---------------------------------------------------------------------------

  function Turns<C>(turns: seq<seq<Edit<C>>>): seq<Action<C>> {
    seq(|turns|, k requires 0 <= k < |turns| => Turn(turns[k]))
  }

  /** The disk after the edits of these turns. */
  function Through<C>(disk: Disk<C>, turns: seq<seq<Edit<C>>>): Disk<C> {
    if turns == [] then disk else ApplyEdits(Through(disk, turns[..|turns| - 1]), turns[|turns| - 1])
  }

  predicate NoneEmpty<C>(turns: seq<seq<Edit<C>>>) {
    forall k | 0 <= k < |turns| :: turns[k] != []
  }

  lemma {:induction false} IdealRunConcat<C>(i: Ideal<C>, a: seq<Action<C>>, b: seq<Action<C>>)
    ensures IdealRun(i, a + b) == IdealRun(IdealRun(i, a), b)
    decreases |a|
  {
    hide IdealStep;
    if a == [] {
      assert a + b == b;
    } else {
      assert (a + b)[0] == a[0] && (a + b)[1..] == a[1..] + b;
      IdealRunConcat(IdealStep(i, a[0]), a[1..], b);
    }
  }

  /** The newest copies are the disks before the last turns, up to a hundred of them. */
  ghost predicate KeepsLast<C>(i: Ideal<C>, disk: Disk<C>, turns: seq<seq<Edit<C>>>) {
    && i.disk == Through(disk, turns)
    && forall k: nat | 1 <= k <= |turns| && k <= 100 :: KeepsBefore(i, disk, turns, k)
  }

  ghost predicate KeepsBefore<C>(i: Ideal<C>, disk: Disk<C>, turns: seq<seq<Edit<C>>>, k: nat)
    requires 1 <= k <= |turns|
  {
    k <= |i.past| && i.past[|i.past| - k] == Through(disk, turns[..|turns| - k])
  }

  lemma OneMoreKept<C>(i: Ideal<C>, disk: Disk<C>, turns: seq<seq<Edit<C>>>, edits: seq<Edit<C>>)
    requires KeepsLast(i, disk, turns) && edits != []
    ensures KeepsLast(IdealStep(i, Turn(edits)), disk, turns + [edits])
    ensures |IdealStep(i, Turn(edits)).past| == if |i.past| >= 100 then 100 else |i.past| + 1
  {
    hide ApplyEdits, Through;
    var j, all := IdealStep(i, Turn(edits)), turns + [edits];
    ThroughOneMore(disk, turns, edits);
    forall k: nat | 1 <= k <= |all| && k <= 100 ensures KeepsBefore(j, disk, all, k) {
      if k == 1 {
        assert all[..|all| - 1] == turns;
      } else {
        assert all[..|all| - k] == turns[..|turns| - (k - 1)];
        assert KeepsBefore(i, disk, turns, k - 1);
      }
    }
  }

  lemma ThroughOneMore<C>(disk: Disk<C>, turns: seq<seq<Edit<C>>>, edits: seq<Edit<C>>)
    ensures Through(disk, turns + [edits]) == ApplyEdits(Through(disk, turns), edits)
  {
    assert (turns + [edits])[..|turns|] == turns;
  }

  lemma {:induction false} TurnsAreKept<C>(i: Ideal<C>, turns: seq<seq<Edit<C>>>)
    requires NoneEmpty(turns) && |i.past| <= 100
    ensures KeepsLast(IdealRun(i, Turns(turns)), i.disk, turns)
    ensures |IdealRun(i, Turns(turns)).past| == if |i.past| + |turns| >= 100 then 100 else |i.past| + |turns|
    decreases |turns|
  {
    hide IdealStep, KeepsLast;
    if turns == [] {
      NothingKept(i);
    } else {
      var front, last := turns[..|turns| - 1], turns[|turns| - 1];
      TurnsAreKept(i, front);
      assert Turns(turns) == Turns(front) + [Turn(last)] && turns == front + [last];
      IdealRunConcat(i, Turns(front), [Turn(last)]);
      OneTurn(IdealRun(i, Turns(front)), last);
      OneMoreKept(IdealRun(i, Turns(front)), i.disk, front, last);
    }
  }

  lemma NothingKept<C>(i: Ideal<C>)
    ensures KeepsLast(i, i.disk, [])
  {
  }

  lemma OneTurn<C>(i: Ideal<C>, edits: seq<Edit<C>>)
    ensures IdealRun(i, [Turn(edits)]) == IdealStep(i, Turn(edits))
  {
    hide IdealStep;
    assert [Turn(edits)][1..] == [];
  }

  /** A session after any run at all. */
  function Reached<C>(disk: Disk<C>, earlier: seq<Action<C>>): Machine<C> {
    Run(Machine(disk, Session(None, [])), earlier)
  }

  /** After any run, and then turns that touched something, each of the last hundred can be
      undone: k undos, or a rewind by k, bring back the disk from before the last k turns. */
  lemma UndoGoesBack<C>(disk: Disk<C>, earlier: seq<Action<C>>, turns: seq<seq<Edit<C>>>, k: nat)
    requires NoneEmpty(turns) && k <= |turns| && k <= 100
    ensures var m := Reached(disk, earlier);
            var n := Run(m, Turns(turns));
            && n.disk == Through(m.disk, turns)
            && |n.session.history| == (if |m.session.history| + |turns| >= 100 then 100 else |m.session.history| + |turns|)
            && Run(n, Undos(k)).disk == Through(m.disk, turns[..|turns| - k])
            && (k > 0 ==> Step(n, Rewind(k)).disk == Through(m.disk, turns[..|turns| - k]))
  {
    hide Run, IdealRun, Step, IdealStep, Through, KeepsLast, Leads;
    var start: Machine<C>, ideal: Ideal<C> := Machine(disk, Session(None, [])), Ideal(disk, []);
    FreshRefines(disk);
    RunRefines(start, ideal, earlier);
    var m, i := Reached(disk, earlier), IdealRun(ideal, earlier);
    RunRefines(m, i, Turns(turns));
    TurnsAreKept(i, turns);
    var n, j := Run(m, Turns(turns)), IdealRun(i, Turns(turns));
    LengthsAgree(m, i);
    LengthsAgree(n, j);
    if k == 0 {
      assert turns[..|turns|] == turns && Undos<C>(0) == [];
      NothingRun(n);
      KeptNow(j, i.disk, turns);
    } else {
      KeptThen(j, i.disk, turns, k);
      RewoundTo(n, j, k);
      RewindIsUndos(n, k);
      KeptNow(j, i.disk, turns);
    }
  }

  lemma FreshRefines<C>(disk: Disk<C>)
    ensures Refines(Machine(disk, Session(None, [])), Ideal(disk, []))
  {
  }

  lemma NothingRun<C>(m: Machine<C>)
    ensures Run(m, []) == m
  {
  }

  lemma LengthsAgree<C>(m: Machine<C>, i: Ideal<C>)
    requires Refines(m, i)
    ensures |m.session.history| == |i.past| <= 100 && m.disk == i.disk
  {
  }

  lemma KeptNow<C>(i: Ideal<C>, disk: Disk<C>, turns: seq<seq<Edit<C>>>)
    requires KeepsLast(i, disk, turns)
    ensures i.disk == Through(disk, turns)
  {
  }

  lemma KeptThen<C>(i: Ideal<C>, disk: Disk<C>, turns: seq<seq<Edit<C>>>, k: nat)
    requires KeepsLast(i, disk, turns) && 1 <= k <= |turns| && k <= 100
    ensures k <= |i.past| && i.past[|i.past| - k] == Through(disk, turns[..|turns| - k])
  {
    assert KeepsBefore(i, disk, turns, k);
  }

  lemma RewoundTo<C>(m: Machine<C>, i: Ideal<C>, k: nat)
    requires Refines(m, i) && 1 <= k <= |i.past|
    ensures Step(m, Rewind(k)).disk == i.past[|i.past| - k]
    ensures |Step(m, Rewind(k)).session.history| == |m.session.history| - k
  {
    StepRefines(m, i, Rewind(k));
  }

  /** A rewind by nothing, by a negative number or by more turns than there are is a rewind by
      all of them. */
  lemma RewindsAll<C>(m: Machine<C>, turns: int)
    requires turns <= 0 || turns > |m.session.history|
    ensures Step(m, Rewind(turns)).session.history == []
    ensures |m.session.history| > 0 ==> Step(m, Rewind(turns)) == Step(m, Rewind(|m.session.history|))
  {
  }

  /** What each action leaves to be undone, along any run: a turn that touched something counts
      one more, up to a hundred; an undo one less; a rewind as many as it was asked for. */
  lemma LeftToUndo<C>(disk: Disk<C>, earlier: seq<Action<C>>, a: Action<C>)
    ensures var m := Reached(disk, earlier);
            var before, after := |m.session.history|, |Step(m, a).session.history|;
            match a
            case Turn(edits) => after == if edits == [] then before else if before >= 100 then 100 else before + 1
            case Undo => after == if before == 0 then 0 else before - 1
            case Rewind(turns) => after == if turns <= 0 || turns > before then 0 else before - turns
  {
    hide Run, IdealRun, Leads;
    var start: Machine<C>, ideal: Ideal<C> := Machine(disk, Session(None, [])), Ideal(disk, []);
    FreshRefines(disk);
    RunRefines(start, ideal, earlier);
    var m, i := Reached(disk, earlier), IdealRun(ideal, earlier);
    StepRefines(m, i, a);
    LengthsAgree(m, i);
    LengthsAgree(Step(m, a), IdealStep(i, a));
    hide Step, Refines;
  }

  // ---------------------------------------------------------------------------
  // Restoring that fails for some files
  // ---------------------------------------------------------------------------

  /** How putting one file back goes: it succeeds, it fails and the file stays as it is, or it
      fails halfway and leaves the file torn. */
  datatype Fate<C> = Back | Kept | Torn(left: C)

  type Fates<!C> = string -> Fate<C>

  /** A file after one attempt to put it back. Removing a file that is gone already always
      succeeds, and a removal that fails leaves the file as it is. */
  function PutBack<C>(was: Option<C>, now: Option<C>, fate: Fate<C>): Option<C> {
    if fate.Back? || (was.None? && now.None?) then was
    else if was.Some? && fate.Torn? then Some(fate.left)
    else now
  }

  /** The disk after putting every snapshotted file back, as far as that goes. */
  function RestoredBy<C>(files: Snapshots<C>, fates: Fates<C>, disk: Disk<C>): (d: Disk<C>)
    ensures forall p :: Capture(d, p) == if p in files then PutBack(files[p], Capture(disk, p), fates(p)) else Capture(disk, p)
  {
    map p | p in disk.Keys + files.Keys && (p in files ==> PutBack(files[p], Capture(disk, p), fates(p)).Some?) ::
      if p in files then PutBack(files[p], Capture(disk, p), fates(p)).value else disk[p]
  }

  /** Where putting back succeeds for every file, files that were there have their content again
      and the others are gone; where it fails for every file, and tears none, nothing changes; a
      torn file holds what was left of it if it was there before, and is as it was if not. */
  lemma PuttingBack<C>(files: Snapshots<C>, fates: Fates<C>, disk: Disk<C>, p: string)
    ensures p !in files ==> Capture(RestoredBy(files, fates, disk), p) == Capture(disk, p)
    ensures p in files && fates(p).Back? ==> Capture(RestoredBy(files, fates, disk), p) == files[p]
    ensures p in files && fates(p).Kept? ==> Capture(RestoredBy(files, fates, disk), p) == Capture(disk, p)
    ensures p in files && fates(p).Torn? ==>
              Capture(RestoredBy(files, fates, disk), p) == if files[p].Some? then Some(fates(p).left) else Capture(disk, p)
    ensures p in CameBack(files, fates, disk) <==> p in files && (fates(p).Back? || (files[p] == None && Capture(disk, p) == None))
    ensures p in CameBack(files, fates, disk) ==> Capture(RestoredBy(files, fates, disk), p) == files[p]
  {
  }

  /** An edit changes the file it names, and no other. */
  lemma EditedIs<C>(disk: Disk<C>, e: Edit<C>, p: string)
    ensures e.Write? && p == e.path ==> Capture(Edited(disk, e), p) == Some(e.content)
    ensures e.Remove? && p == e.path ==> Capture(Edited(disk, e), p) == None
    ensures e.Failed? || p != e.path ==> Capture(Edited(disk, e), p) == Capture(disk, p)
  {
  }

  /** An undo or rewind whose restoring may fail for some files; its turns are gone from the
      history all the same. */
  function StepWith<C>(m: Machine<C>, a: Action<C>, fates: Fates<C>): Machine<C> {
    var h := m.session.history;
    match a
    case Turn(_) => Step(m, a)
    case Undo =>
      if h == [] then m
      else Machine(RestoredBy(h[|h| - 1], fates, m.disk), m.session.(history := h[..|h| - 1]))
    case Rewind(turns) =>
      if h == [] then m
      else
        var keep := |h| - Reach(turns, |h|);
        Machine(RestoredBy(Merged(h[keep..]), fates, m.disk), m.session.(history := h[..keep]))
  }

  function RunWith<C>(m: Machine<C>, actions: seq<(Action<C>, Fates<C>)>): Machine<C>
    decreases |actions|
  {
    if actions == [] then m else RunWith(StepWith(m, actions[0].0, actions[0].1), actions[1..])
  }

  function Actions<C>(actions: seq<(Action<C>, Fates<C>)>): seq<Action<C>> {
    if actions == [] then [] else [actions[0].0] + Actions(actions[1..])
  }

  /** Snapshots of the same files, with the same state of this one. */
  ghost predicate AlikeAt<C>(p: string, a: Snapshots<C>, b: Snapshots<C>) {
    a.Keys == b.Keys && (p in a ==> a[p] == b[p])
  }

  ghost predicate HistoriesAlikeAt<C>(p: string, a: seq<Snapshots<C>>, b: seq<Snapshots<C>>) {
    |a| == |b| && forall k | 0 <= k < |a| :: AlikeAt(p, a[k], b[k])
  }

  /** Machines that agree on one file, now and in every snapshot. */
  ghost predicate MachinesAlikeAt<C>(p: string, m: Machine<C>, n: Machine<C>) {
    && Capture(m.disk, p) == Capture(n.disk, p)
    && HistoriesAlikeAt(p, m.session.history, n.session.history)
    && (m.session.active.Some? <==> n.session.active.Some?)
    && (m.session.active.Some? ==> AlikeAt(p, m.session.active.value, n.session.active.value))
  }

  lemma {:induction false} EditsAlikeAt<C>(p: string, m: Machine<C>, n: Machine<C>, edits: seq<Edit<C>>)
    requires MachinesAlikeAt(p, m, n)
    ensures MachinesAlikeAt(p, EditAll(m, edits), EditAll(n, edits))
    decreases |edits|
  {
    if edits != [] {
      var e := edits[0];
      EditsAlikeAt(p, Machine(Edited(m.disk, e), Snapped(m.session, e.path, m.disk)),
                   Machine(Edited(n.disk, e), Snapped(n.session, e.path, n.disk)), edits[1..]);
    }
  }

  lemma {:induction false} MergedAlikeAt<C>(p: string, a: seq<Snapshots<C>>, b: seq<Snapshots<C>>)
    requires HistoriesAlikeAt(p, a, b)
    ensures AlikeAt(p, Merged(a), Merged(b))
    decreases |a|
  {
    if a != [] {
      assert AlikeAt(p, a[0], b[0]);
      assert forall k | 0 <= k < |a| - 1 :: a[1..][k] == a[k + 1] && b[1..][k] == b[k + 1];
      MergedAlikeAt(p, a[1..], b[1..]);
    }
  }

  lemma EmptyTogether<C>(p: string, a: Snapshots<C>, b: Snapshots<C>)
    requires AlikeAt(p, a, b)
    ensures a == map[] <==> b == map[]
  {
    assert a == map[] <==> a.Keys == {};
    assert b == map[] <==> b.Keys == {};
  }

  lemma OneMoreAlikeAt<C>(p: string, h: seq<Snapshots<C>>, g: seq<Snapshots<C>>, a: Snapshots<C>, b: Snapshots<C>)
    requires HistoriesAlikeAt(p, h, g) && AlikeAt(p, a, b)
    ensures HistoriesAlikeAt(p, Newest(h + [a]), Newest(g + [b]))
  {
    hide AlikeAt;
  }

  lemma CommitAlikeAt<C>(p: string, m: Machine<C>, n: Machine<C>)
    requires MachinesAlikeAt(p, m, n)
    ensures MachinesAlikeAt(p, m.(session := Committed(m.session)), n.(session := Committed(n.session)))
  {
    hide AlikeAt, HistoriesAlikeAt, Newest;
    if m.session.active.Some? {
      EmptyTogether(p, m.session.active.value, n.session.active.value);
      OneMoreAlikeAt(p, m.session.history, n.session.history, m.session.active.value, n.session.active.value);
    }
  }

  /** Back to some point of the histories, with alike snapshots put back. */
  lemma RestoreAlikeAt<C>(p: string, m: Machine<C>, n: Machine<C>, a: Snapshots<C>, b: Snapshots<C>, keep: nat, fates: Fates<C>)
    requires MachinesAlikeAt(p, m, n) && AlikeAt(p, a, b) && fates(p).Back? && keep <= |m.session.history|
    ensures MachinesAlikeAt(p, Machine(RestoredBy(a, fates, m.disk), m.session.(history := m.session.history[..keep])),
                            Machine(Restored(b, n.disk), n.session.(history := n.session.history[..keep])))
  {
  }

  lemma StepAlikeAt<C>(p: string, m: Machine<C>, n: Machine<C>, a: Action<C>, fates: Fates<C>)
    requires MachinesAlikeAt(p, m, n) && (a.Turn? || fates(p).Back?)
    ensures MachinesAlikeAt(p, StepWith(m, a, fates), Step(n, a))
  {
    var h, g := m.session.history, n.session.history;
    hide AlikeAt, RestoredBy, Restored, Merged, Committed;
    match a
    case Turn(edits) =>
      EmptyAlikeAt<C>(p);
      var begun, other := m.(session := Session(Some(map[]), h)), n.(session := Session(Some(map[]), g));
      EditsAlikeAt(p, begun, other, edits);
      CommitAlikeAt(p, EditAll(begun, edits), EditAll(other, edits));
    case Undo =>
      if h != [] {
        RestoreAlikeAt(p, m, n, h[|h| - 1], g[|g| - 1], |h| - 1, fates);
      }
    case Rewind(turns) =>
      if h != [] {
        var keep := |h| - Reach(turns, |h|);
        MergedAlikeAt(p, h[keep..], g[keep..]);
        RestoreAlikeAt(p, m, n, Merged(h[keep..]), Merged(g[keep..]), keep, fates);
      }
  }

  lemma EmptyAlikeAt<C>(p: string)
    ensures AlikeAt<C>(p, map[], map[])
  {
  }

  lemma {:induction false} RunAlikeAt<C>(p: string, m: Machine<C>, n: Machine<C>, actions: seq<(Action<C>, Fates<C>)>)
    requires MachinesAlikeAt(p, m, n) && forall a <- actions :: a.0.Turn? || a.1(p).Back?
    ensures MachinesAlikeAt(p, RunWith(m, actions), Run(n, Actions(actions)))
    decreases |actions|
  {
    if actions != [] {
      StepAlikeAt(p, m, n, actions[0].0, actions[0].1);
      RunAlikeAt(p, StepWith(m, actions[0].0, actions[0].1), Step(n, actions[0].0), actions[1..]);
      assert Actions(actions)[1..] == Actions(actions[1..]);
    }
  }

  /** One file that cannot be put back does not strand the others: over every run, a file that
      every undo and rewind can put back is as on the disk they promise. */
  lemma RestorableFilesComeBack<C>(disk: Disk<C>, actions: seq<(Action<C>, Fates<C>)>, p: string)
    requires forall a <- actions :: a.0.Turn? || a.1(p).Back?
    ensures Capture(RunWith(Machine(disk, Session(None, [])), actions).disk, p)
            == Capture(IdealRun(Ideal(disk, []), Actions(actions)).disk, p)
  {
    var start: Machine<C> := Machine(disk, Session(None, []));
    RunAlikeAt(p, start, start, actions);
    EveryRunUndoes(disk, Actions(actions));
  }

  // ---------------------------------------------------------------------------
  // The objects
  // ---------------------------------------------------------------------------

  /** The workspace tools write to. A write or removal that fails leaves at most the file it
      was aimed at changed. */
  class Workspace<C> {
    var files: Disk<C>

    constructor (files: Disk<C>)
      ensures this.files == files
    {
      this.files := files;
    }

    /** Leaves one file in some state. */
    method Put(path: string, content: Option<C>)
      modifies this
      ensures forall p :: Capture(files, p) == if p == path then content else Capture(old(files), p)
    {
      files := if content.Some? then files[path := content.value] else files - {path};
    }

    /** Puts a file back as a snapshot says, if that succeeds. */
    method Restore(path: string, was: Option<C>, fate: Fate<C>) returns (ok: bool)
      modifies this
      ensures forall p :: Capture(files, p) == if p == path then PutBack(was, Capture(old(files), p), fate) else Capture(old(files), p)
      ensures ok <==> fate.Back? || (was.None? && path !in old(files))
    {
      if was.None? {
        if path !in files {
          return true;
        }
        ok := fate.Back?;
        if ok {
          files := files - {path};
        }
        return;
      }
      match fate {
        case Back => files := files[path := was.value];
        case Kept =>
        case Torn(left) => files := files[path := left];
      }
      ok := fate.Back?;
    }
  }

  /** Per-session snapshots and undo history over one workspace. */
  class Checkpointer<C> {
    const disk: Workspace<C>
    var sessions: map<string, Session<C>>

    constructor (disk: Workspace<C>)
      ensures this.disk == disk && sessions == map[]
    {
      this.disk := disk;
      sessions := map[];
    }

    method BeginTurn(id: string)
      modifies this
      ensures sessions == old(sessions)[id := Session(Some(map[]), StateOf(old(sessions), id).history)]
    {
      var s := StateOf(sessions, id);
      sessions := sessions[id := s.(active := Some(map[]))];
    }

    method Snapshot(id: string, path: string)
      modifies this
      ensures sessions == old(sessions)[id := Snapped(StateOf(old(sessions), id), path, disk.files)]
    {
      var s := StateOf(sessions, id);
      sessions := sessions[id := s];
      if s.active.None? {
        return;
      }
      if path in s.active.value {
        return;
      }
      var snap := if path in disk.files then Some(disk.files[path]) else None;
      sessions := sessions[id := s.(active := Some(s.active.value[path := snap]))];
    }

    method CommitTurn(id: string)
      modifies this
      ensures sessions == old(sessions)[id := Committed(StateOf(old(sessions), id))]
    {
      var s := StateOf(sessions, id);
      sessions := sessions[id := s];
      if s.active.None? {
        return;
      }
      var history := s.history;
      if |s.active.value| > 0 {
        history := history + [s.active.value];
        if |history| > MAX_CHECKPOINTS {
          history := history[|history| - MAX_CHECKPOINTS..];
        }
      }
      sessions := sessions[id := Session(None, history)];
    }

    method AbortTurn(id: string)
      modifies this
      ensures sessions == if id in old(sessions) then old(sessions)[id := old(sessions)[id].(active := None)] else old(sessions)
    {
      if id in sessions {
        sessions := sessions[id := sessions[id].(active := None)];
      }
    }

    /** Reverts the newest committed turn, as far as its files can be put back. */
    method UndoLastTurn(id: string, fates: Fates<C>) returns (restored: Option<nat>)
      modifies this, disk
      ensures StateOf(old(sessions), id).history == [] ==>
                restored == None && sessions == old(sessions) && disk.files == old(disk.files)
      ensures StateOf(old(sessions), id).history != [] ==>
                var was := Machine(old(disk.files), StateOf(old(sessions), id));
                && restored == Some(|CameBack(was.session.history[|was.session.history| - 1], fates, was.disk)|)
                && disk.files == StepWith(was, Undo, fates).disk
                && sessions == old(sessions)[id := StepWith(was, Undo, fates).session]
    {
      var s := StateOf(sessions, id);
      if id !in sessions || |s.history| == 0 {
        return None;
      }
      var last := s.history[|s.history| - 1];
      sessions := sessions[id := s.(history := s.history[..|s.history| - 1])];
      var n := RestoreCheckpoint(last, fates);
      restored := Some(n);
    }

    /** Reverts the last `turns` committed turns at once, or all of them, as far as their files
        can be put back. */
    method RewindTurns(id: string, turns: int, fates: Fates<C>) returns (reverted: nat)
      modifies this, disk
      ensures var was := Machine(old(disk.files), StateOf(old(sessions), id));
              && reverted == |was.session.history| - |StateOf(sessions, id).history|
              && disk.files == StepWith(was, Rewind(turns), fates).disk
              && StateOf(sessions, id) == StepWith(was, Rewind(turns), fates).session
              && forall other | other != id :: StateOf(sessions, other) == StateOf(old(sessions), other)
    {
      var s := StateOf(sessions, id);
      hide RestoredBy, Merged;
      if id !in sessions || |s.history| == 0 {
        return 0;
      }
      reverted := if turns <= 0 || turns > |s.history| then |s.history| else turns;
      var keep := |s.history| - reverted;
      var popped := s.history[keep..];
      sessions := sessions[id := s.(history := s.history[..keep])];
      var merged := MergeOldestWins(popped);
      var _ := RestoreCheckpoint(merged, fates);
    }

    static method MergeOldestWins(cps: seq<Snapshots<C>>) returns (merged: Snapshots<C>)
      ensures merged == Merged(cps)
    {
      merged := map[];
      for k := 0 to |cps|
        invariant Merged(cps[k..]) + merged == Merged(cps)
      {
        assert cps[k..][0] == cps[k] && cps[k..][1..] == cps[k + 1..];
        assert Merged(cps[k..]) + merged == Merged(cps[k + 1..]) + (cps[k] + merged);
        merged := MergeInto(merged, cps[k]);
      }
    }

    /** Adds the snapshots whose path is not merged yet, in any order. */
    static method MergeInto(merged: Snapshots<C>, cp: Snapshots<C>) returns (r: Snapshots<C>)
      ensures r == cp + merged
    {
      r := merged;
      var todo := cp.Keys;
      while todo != {}
        invariant todo <= cp.Keys
        invariant r == (map p | p in cp && p !in todo :: cp[p]) + merged
      {
        var k :| k in todo;
        if k !in r {
          r := r[k := cp[k]];
        }
        todo := todo - {k};
      }
    }

    /** Writes each snapshot back, in any order. A file that fails does not stop the others, and
        the number that came back is reported. */
    method RestoreCheckpoint(cp: Snapshots<C>, fates: Fates<C>) returns (restored: nat)
      modifies disk
      ensures disk.files == RestoredBy(cp, fates, old(disk.files))
      ensures restored == |CameBack(cp, fates, old(disk.files))|
    {
      restored := 0;
      var todo := cp.Keys;
      ghost var back: set<string> := {};
      while todo != {}
        invariant todo <= cp.Keys && restored == |back|
        invariant back == set p | p in CameBack(cp, fates, old(disk.files)) && p !in todo
        invariant forall p :: Capture(disk.files, p) ==
                    if p in cp && p !in todo then PutBack(cp[p], Capture(old(disk.files), p), fates(p)) else Capture(old(disk.files), p)
      {
        var k :| k in todo;
        assert Capture(disk.files, k) == Capture(old(disk.files), k);
        var ok := disk.Restore(k, cp[k], fates(k));
        if ok {
          restored, back := restored + 1, back + {k};
        }
        todo := todo - {k};
      }
      assert back == CameBack(cp, fates, old(disk.files));
      DiskExt(disk.files, RestoredBy(cp, fates, old(disk.files)));
    }
  }

  /** The snapshotted files whose restoring succeeds. */
  ghost function CameBack<C>(cp: Snapshots<C>, fates: Fates<C>, disk: Disk<C>): set<string> {
    set p | p in cp && (fates(p).Back? || (cp[p].None? && p !in disk))
  }
}
