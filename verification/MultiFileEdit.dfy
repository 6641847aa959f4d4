/** Edits of several files at once: the two-phase apply_patch tool, and language-server edits
    that are rolled back when one of their operations fails. */
module MultiFileEdit {
  import opened Checkpoint
  import opened PatchFormat
  import opened Utf8
  import opened Wrappers
  import Lines
  import PatchApply
  import TextEdits

  // ---------------------------------------------------------------------------
  // apply_patch
  // ---------------------------------------------------------------------------

  /** The content an operation gives its file, from the file's content before. */
  ghost predicate Gives(op: PatchOp, before: string, after: string) {
    match op
    case Add(_, body) => after == body
    case Delete(_) => after == ""
    case Update(_, hunks) =>
      && PatchApply.Anchored(hunks)
      && exists p :: PatchApply.Leftmost(Lines.Split(before), hunks, p)
                     && after == Lines.Join(PatchApply.Rebuilt(Lines.Split(before), hunks, p))
  }

  function Content(disk: Disk<string>, path: string): string {
    if path in disk then disk[path] else ""
  }

  /** Permission and review decisions, arbitrary but fixed for one call. */
  datatype Gate = Gate(allow: string -> bool, approve: (PatchOp, string, string) -> bool)

  /** Which files can be written, and which removed. */
  datatype Io = Io(writes: string -> bool, removes: string -> bool)

  /** The files outside `paths` are the same. */
  ghost predicate SameOutside<C>(paths: set<string>, d: Disk<C>, e: Disk<C>) {
    forall p | p !in paths :: Capture(d, p) == Capture(e, p)
  }

  /** An operation that planning accepts against the disk, and the content it gives. */
  ghost predicate Planned(op: PatchOp, after: string, disk: Disk<string>, gate: Gate) {
    && gate.allow(op.path)
    && (op.Add? <==> op.path !in disk)
    && Gives(op, Content(disk, op.path), after)
    && gate.approve(op, Content(disk, op.path), after)
  }

  predicate DistinctPaths(ops: seq<PatchOp>) {
    forall i, j | 0 <= i < j < |ops| :: ops[i].path != ops[j].path
  }

  ghost predicate Plan(ops: seq<PatchOp>, afters: seq<string>, disk: Disk<string>, gate: Gate) {
    && DistinctPaths(ops)
    && |afters| == |ops|
    && forall k | 0 <= k < |ops| :: Planned(ops[k], afters[k], disk, gate)
  }

  ghost predicate Plannable(ops: seq<PatchOp>, disk: Disk<string>, gate: Gate) {
    exists afters :: Plan(ops, afters, disk, gate)
  }

  function Target(op: PatchOp, after: string): Option<string> {
    if op.Delete? then None else Some(after)
  }

  /** Every file an operation names is as that operation leaves it, and no other changed. */
  ghost predicate AllAtOnce(ops: seq<PatchOp>, afters: seq<string>, before: Disk<string>, after: Disk<string>)
    requires |afters| == |ops|
  {
    && (forall k | 0 <= k < |ops| :: Capture(after, ops[k].path) == Target(ops[k], afters[k]))
    && (forall p | (forall k | 0 <= k < |ops| :: ops[k].path != p) :: Capture(after, p) == Capture(before, p))
  }

  lemma LeftmostUnique(file: seq<string>, hunks: seq<PatchApply.Hunk>, p: seq<nat>, q: seq<nat>)
    requires PatchApply.Leftmost(file, hunks, p) && PatchApply.Leftmost(file, hunks, q)
    ensures p == q
  {
  }

  /** A plan leaves no choice: an operation gives its file one content only. */
  lemma GivesOneContent(op: PatchOp, before: string, x: string, y: string)
    requires Gives(op, before, x) && Gives(op, before, y)
    ensures x == y
  {
    if op.Update? {
      var file := Lines.Split(before);
      var p :| PatchApply.Leftmost(file, op.hunks, p) && x == Lines.Join(PatchApply.Rebuilt(file, op.hunks, p));
      var q :| PatchApply.Leftmost(file, op.hunks, q) && y == Lines.Join(PatchApply.Rebuilt(file, op.hunks, q));
      LeftmostUnique(file, op.hunks, p, q);
    }
  }

  lemma GivingNeedsPlaces(op: PatchOp, before: string, after: string)
    requires op.Update?
    ensures Gives(op, before, after) ==> PatchApply.Anchored(op.hunks) && PatchApply.Placeable(Lines.Split(before), op.hunks)
  {
    if Gives(op, before, after) {
      var p :| PatchApply.Leftmost(Lines.Split(before), op.hunks, p);
      assert PatchApply.Placed(Lines.Split(before), op.hunks, p);
    }
  }

  /** The content an operation gives, or nothing when its hunks cannot be placed. */
  method ApplyTo(op: PatchOp, before: string) returns (r: Option<string>)
    ensures r.Some? ==> Gives(op, before, r.value)
    ensures r.None? ==> forall after :: !Gives(op, before, after)
  {
    match op {
      case Add(_, body) => r := Some(body);
      case Delete(_) => r := Some("");
      case Update(_, hunks) =>
        var applied := PatchApply.ApplyHunks(before, hunks);
        if applied.Err? {
          forall after ensures !Gives(op, before, after) {
            GivingNeedsPlaces(op, before, after);
          }
          r := None;
        } else {
          r := Some(applied.value);
        }
    }
  }

  /** Phase one: checks every operation against the disk as it is, in order. */
  method PlanPatch(ops: seq<PatchOp>, disk: Disk<string>, gate: Gate) returns (afters: Option<seq<string>>)
    ensures afters.Some? <==> Plannable(ops, disk, gate)
    ensures afters.Some? ==> Plan(ops, afters.value, disk, gate)
  {
    hide Gives;
    var planned: seq<string> := [];
    var seen: set<string> := {};
    for i := 0 to |ops|
      invariant DistinctPaths(ops[..i]) && seen == (set k | 0 <= k < i :: ops[k].path)
      invariant |planned| == i && forall k | 0 <= k < i :: Planned(ops[k], planned[k], disk, gate)
    {
      var op := ops[i];
      if op.path in seen {
        return None;
      }
      seen := seen + {op.path};
      var exists_ := op.path in disk;
      if !gate.allow(op.path) || (op.Add? && exists_) || (!op.Add? && !exists_) {
        Unplannable(ops, disk, gate, i);
        return None;
      }
      var before := if exists_ then disk[op.path] else "";
      var after := ApplyTo(op, before);
      if after.None? {
        Unplannable(ops, disk, gate, i);
        return None;
      }
      if !gate.approve(op, before, after.value) {
        NoOtherContent(op, disk, gate, after.value);
        Unplannable(ops, disk, gate, i);
        return None;
      }
      planned := planned + [after.value];
    }
    assert ops[..|ops|] == ops;
    assert Plan(ops, planned, disk, gate);
    return Some(planned);
  }

  lemma NoOtherContent(op: PatchOp, disk: Disk<string>, gate: Gate, after: string)
    requires Gives(op, Content(disk, op.path), after) && !gate.approve(op, Content(disk, op.path), after)
    ensures forall x :: !Planned(op, x, disk, gate)
  {
    forall x ensures Planned(op, x, disk, gate) ==> x == after {
      if Planned(op, x, disk, gate) {
        GivesOneContent(op, Content(disk, op.path), x, after);
      }
    }
  }

  lemma Unplannable(ops: seq<PatchOp>, disk: Disk<string>, gate: Gate, i: nat)
    requires i < |ops| && forall x :: !Planned(ops[i], x, disk, gate)
    ensures !Plannable(ops, disk, gate)
  {
    forall afters ensures !Plan(ops, afters, disk, gate) {
      PlansEach(ops, afters, disk, gate, i);
    }
  }

  lemma PlansEach(ops: seq<PatchOp>, afters: seq<string>, disk: Disk<string>, gate: Gate, i: nat)
    requires i < |ops|
    ensures Plan(ops, afters, disk, gate) ==> exists x :: Planned(ops[i], x, disk, gate)
  {
    if Plan(ops, afters, disk, gate) {
      assert Planned(ops[i], afters[i], disk, gate);
    }
  }

  /** Under an active checkpoint the turn's start can still be restored, and it alone moved. */
  ghost predicate KeepsTurnStart<C>(s: Session<C>, disk: Disk<C>, next: Session<C>, after: Disk<C>) {
    && next.history == s.history
    && (s.active.None? ==> next.active.None?)
    && (s.active.Some? ==> next.active.Some? && Restored(next.active.value, after) == Restored(s.active.value, disk))
  }

  datatype PatchResult = Refused | Interrupted(done: nat) | Applied

  predicate Writable(op: PatchOp, io: Io) {
    if op.Delete? then io.removes(op.path) else io.writes(op.path)
  }

  /** What a planned patch leaves: all of it, or what came before the first file that could not
      be written, that file itself being in any state. */
  ghost predicate Wrote(ops: seq<PatchOp>, afters: seq<string>, io: Io, before: Disk<string>, r: PatchResult, now: Disk<string>)
    requires |afters| == |ops|
  {
    match r
    case Refused => false
    case Applied => (forall k | 0 <= k < |ops| :: Writable(ops[k], io)) && AllAtOnce(ops, afters, before, now)
    case Interrupted(n) =>
      && n < |ops| && !Writable(ops[n], io) && (forall k | 0 <= k < n :: Writable(ops[k], io))
      && exists done | AllAtOnce(ops[..n], afters[..n], before, done) :: SameOutside({ops[n].path}, done, now)
  }

  /** Applies a patch: it is refused, changing nothing, exactly when the envelope does not
      parse or some operation cannot be planned. Otherwise every named file becomes what its
      operation gives and no other file changes, unless a write fails; even then a turn in
      progress can still be undone. */
  method ApplyPatch(cp: Checkpointer<string>, id: string, patch: string, gate: Gate, io: Io) returns (r: PatchResult)
    modifies cp, cp.disk
    ensures r.Refused? <==> !(Envelope(patch).Parsed? && Plannable(Envelope(patch).value, old(cp.disk.files), gate))
    ensures r.Refused? ==> cp.disk.files == old(cp.disk.files) && cp.sessions == old(cp.sessions)
    ensures !r.Refused? ==> exists afters | Plan(Envelope(patch).value, afters, old(cp.disk.files), gate) ::
              Wrote(Envelope(patch).value, afters, io, old(cp.disk.files), r, cp.disk.files)
    ensures KeepsTurnStart(StateOf(old(cp.sessions), id), old(cp.disk.files), StateOf(cp.sessions, id), cp.disk.files)
    ensures forall other | other != id :: StateOf(cp.sessions, other) == StateOf(old(cp.sessions), other)
  {
    var parsed := ParsePatch(patch);
    if parsed.Rejected? {
      return Refused;
    }
    var ops := parsed.value;
    var plan := PlanPatch(ops, cp.disk.files, gate);
    if plan.None? {
      return Refused;
    }
    r := WritePlanned(cp, id, ops, plan.value, io);
  }

  /** Phase two: snapshots and writes each planned file, up to the first failure. */
  method WritePlanned(cp: Checkpointer<string>, id: string, ops: seq<PatchOp>, afters: seq<string>, io: Io) returns (r: PatchResult)
    requires |afters| == |ops| && DistinctPaths(ops)
    modifies cp, cp.disk
    ensures Wrote(ops, afters, io, old(cp.disk.files), r, cp.disk.files)
    ensures KeepsTurnStart(StateOf(old(cp.sessions), id), old(cp.disk.files), StateOf(cp.sessions, id), cp.disk.files)
    ensures forall other | other != id :: StateOf(cp.sessions, other) == StateOf(old(cp.sessions), other)
  {
    for i := 0 to |ops|
      invariant AllAtOnce(ops[..i], afters[..i], old(cp.disk.files), cp.disk.files)
      invariant forall k | 0 <= k < i :: Writable(ops[k], io)
      invariant KeepsTurnStart(StateOf(old(cp.sessions), id), old(cp.disk.files), StateOf(cp.sessions, id), cp.disk.files)
      invariant forall other | other != id :: StateOf(cp.sessions, other) == StateOf(old(cp.sessions), other)
    {
      ghost var session, disk := StateOf(cp.sessions, id), cp.disk.files;
      cp.Snapshot(id, ops[i].path);
      var left := Target(ops[i], afters[i]);
      if !Writable(ops[i], io) {
        left := *;
      }
      cp.disk.Put(ops[i].path, left);
      if session.active.Some? {
        EditKeepsTurnStart(session, disk, ops[i].path, cp.disk.files);
      }
      if !Writable(ops[i], io) {
        assert SameOutside({ops[i].path}, disk, cp.disk.files);
        return Interrupted(i);
      }
      OneMore(ops, afters, i, old(cp.disk.files), disk, cp.disk.files);
    }
    assert ops[..|ops|] == ops && afters[..|ops|] == afters;
    return Applied;
  }

  lemma OneMore(ops: seq<PatchOp>, afters: seq<string>, i: nat, before: Disk<string>, disk: Disk<string>, next: Disk<string>)
    requires i < |ops| == |afters| && DistinctPaths(ops)
    requires AllAtOnce(ops[..i], afters[..i], before, disk)
    requires forall p :: Capture(next, p) == if p == ops[i].path then Target(ops[i], afters[i]) else Capture(disk, p)
    ensures AllAtOnce(ops[..i + 1], afters[..i + 1], before, next)
  {
    var os, fs := ops[..i + 1], afters[..i + 1];
    forall k | 0 <= k < |os| ensures Capture(next, os[k].path) == Target(os[k], fs[k]) {
      if k < i {
        assert Capture(disk, ops[..i][k].path) == Target(ops[..i][k], afters[..i][k]);
      }
    }
    forall p | forall k | 0 <= k < |os| :: os[k].path != p ensures Capture(next, p) == Capture(before, p) {
      assert os[i].path != p;
      forall k | 0 <= k < i ensures ops[..i][k].path != p {
        assert os[k].path != p;
      }
    }
  }

  /** The blocks of the hunks replaced where they are placed the leftmost way. */
  ghost predicate UpdatedBy(hunks: seq<PatchApply.Hunk>, was: string, now: string) {
    exists p | |p| == |hunks| && PatchApply.Leftmost(Lines.Split(was), hunks, p) ::
      now == Lines.Join(PatchApply.Replaced(Lines.Split(was), hunks, p))
  }

  lemma UpdateGives(path: string, hunks: seq<PatchApply.Hunk>, before: string, after: string)
    requires Gives(Update(path, hunks), before, after)
    ensures UpdatedBy(hunks, before, after)
  {
    var file := Lines.Split(before);
    var p :| PatchApply.Leftmost(file, hunks, p) && after == Lines.Join(PatchApply.Rebuilt(file, hunks, p));
    PatchApply.RebuiltReplaces(file, hunks, p);
  }

  /** What an applied patch leaves of the file an operation names: a new file has the text given
      for it, and was not there before; a deleted file is gone; an updated one has its blocks
      replaced. */
  lemma AppliedPatchLeaves(ops: seq<PatchOp>, afters: seq<string>, gate: Gate, io: Io, before: Disk<string>, now: Disk<string>, k: nat)
    requires k < |ops| && Plan(ops, afters, before, gate) && Wrote(ops, afters, io, before, Applied, now)
    ensures match ops[k]
            case Add(path, body) => Capture(before, path) == None && Capture(now, path) == Some(body)
            case Delete(path) => Capture(before, path).Some? && Capture(now, path) == None
            case Update(path, hunks) =>
              Capture(before, path).Some? && Capture(now, path).Some? && UpdatedBy(hunks, Capture(before, path).value, Capture(now, path).value)
  {
    hide UpdatedBy;
    var op := ops[k];
    assert Planned(op, afters[k], before, gate) && Capture(now, op.path) == Target(op, afters[k]);
    if op.Update? {
      UpdateGives(op.path, op.hunks, before[op.path], afters[k]);
    }
  }

  /** What a patch leaves whose n-th file could not be written: the files before it are as planned,
      those after it as they were. */
  lemma InterruptedPatchLeaves(ops: seq<PatchOp>, afters: seq<string>, gate: Gate, io: Io, before: Disk<string>, now: Disk<string>, n: nat, k: nat)
    requires k < |ops| && Plan(ops, afters, before, gate) && Wrote(ops, afters, io, before, Interrupted(n), now)
    ensures n < |ops| && if ops[n].Delete? then !io.removes(ops[n].path) else !io.writes(ops[n].path)
    ensures k < n ==> Capture(now, ops[k].path) == if ops[k].Delete? then None else Some(afters[k])
    ensures k > n ==> Capture(now, ops[k].path) == Capture(before, ops[k].path)
  {
    hide Planned;
    var done :| AllAtOnce(ops[..n], afters[..n], before, done) && SameOutside({ops[n].path}, done, now);
    if k < n {
      assert ops[..n][k] == ops[k] && afters[..n][k] == afters[k] && ops[k].path != ops[n].path;
    } else if k > n {
      assert ops[n].path != ops[k].path;
      forall j | 0 <= j < n ensures ops[..n][j].path != ops[k].path {
        assert ops[j].path != ops[k].path;
      }
    }
  }

  /** Files that no operation names stay. */
  lemma AppliedPatchLeavesOthers(ops: seq<PatchOp>, afters: seq<string>, gate: Gate, io: Io, before: Disk<string>, now: Disk<string>, path: string)
    requires Plan(ops, afters, before, gate) && Wrote(ops, afters, io, before, Applied, now)
    requires forall k | 0 <= k < |ops| :: ops[k].path != path
    ensures Capture(now, path) == Capture(before, path)
  {
  }

  /** So for a printed envelope, whatever the disk: where it is not refused and no write fails, the
      operations printed are those carried out. */
  lemma PrintedPatchLeaves(ops: seq<PatchOp>, afters: seq<string>, gate: Gate, io: Io, before: Disk<string>, now: Disk<string>, k: nat)
    requires AllPrintable(ops) && k < |ops|
    requires Envelope(Print(ops)).Parsed?
    requires Plan(Envelope(Print(ops)).value, afters, before, gate) && Wrote(Envelope(Print(ops)).value, afters, io, before, Applied, now)
    ensures ops[k].Add? ==> Capture(now, ops[k].path) == Some(ops[k].body)
    ensures ops[k].Delete? ==> Capture(now, ops[k].path) == None
    ensures ops[k].Update? ==>
              Capture(before, ops[k].path).Some? && Capture(now, ops[k].path).Some?
              && UpdatedBy(ops[k].hunks, Capture(before, ops[k].path).value, Capture(now, ops[k].path).value)
  {
    hide UpdatedBy, Envelope, Print, AllPrintable, Plan, Wrote;
    ParsePrinted(ops);
    AppliedPatchLeaves(ops, afters, gate, io, before, now, k);
  }

  /** A patch can be planned exactly when no two operations name one file, each is allowed, creates
      a file that is not there or changes one that is, has its blocks in it, and what it gives is
      approved. */
  lemma PlannableExactlyIf(ops: seq<PatchOp>, disk: Disk<string>, gate: Gate)
    ensures Plannable(ops, disk, gate) <==>
              && (forall i, j | 0 <= i < j < |ops| :: ops[i].path != ops[j].path)
              && (forall k | 0 <= k < |ops| :: PlannableOne(ops[k], disk, gate))
  {
    hide PlannableOne;
    forall k | 0 <= k < |ops|
      ensures PlannableOne(ops[k], disk, gate) <==> exists after :: Planned(ops[k], after, disk, gate)
    {
      PlannableOneIs(ops[k], disk, gate);
    }
    hide Planned;
    if Plannable(ops, disk, gate) {
      var afters :| Plan(ops, afters, disk, gate);
      forall k | 0 <= k < |ops| ensures PlannableOne(ops[k], disk, gate) {
        assert Planned(ops[k], afters[k], disk, gate);
      }
    }
    if DistinctPaths(ops) && forall k | 0 <= k < |ops| :: PlannableOne(ops[k], disk, gate) {
      var afters := seq(|ops|, k requires 0 <= k < |ops| => PlannedContent(ops[k], disk, gate));
      assert Plan(ops, afters, disk, gate);
    }
  }

  ghost function PlannedContent(op: PatchOp, disk: Disk<string>, gate: Gate): (after: string)
    ensures (exists x :: Planned(op, x, disk, gate)) ==> Planned(op, after, disk, gate)
  {
    if exists x :: Planned(op, x, disk, gate) then var x :| Planned(op, x, disk, gate); x else ""
  }

  predicate HasBlocks(hunks: seq<PatchApply.Hunk>) {
    forall k | 0 <= k < |hunks| :: |hunks[k].oldLines| > 0
  }

  ghost predicate PlannableOne(op: PatchOp, disk: Disk<string>, gate: Gate) {
    && gate.allow(op.path)
    && match op
       case Add(path, body) => path !in disk && gate.approve(op, "", body)
       case Delete(path) => path in disk && gate.approve(op, disk[path], "")
       case Update(path, hunks) =>
         && path in disk && HasBlocks(hunks) && PatchApply.Placeable(Lines.Split(disk[path]), hunks)
         && forall after | UpdatedBy(hunks, disk[path], after) :: gate.approve(op, disk[path], after)
  }

  lemma UpdateIs(path: string, hunks: seq<PatchApply.Hunk>, before: string, after: string)
    ensures Gives(Update(path, hunks), before, after) <==> HasBlocks(hunks) && UpdatedBy(hunks, before, after)
  {
    var file := Lines.Split(before);
    forall p | |p| == |hunks| && PatchApply.Leftmost(file, hunks, p) ensures PatchApply.Rebuilt(file, hunks, p) == PatchApply.Replaced(file, hunks, p) {
      PatchApply.RebuiltReplaces(file, hunks, p);
    }
  }

  lemma PlannableOneIs(op: PatchOp, disk: Disk<string>, gate: Gate)
    ensures PlannableOne(op, disk, gate) <==> exists after :: Planned(op, after, disk, gate)
  {
    match op
    case Add(path, body) =>
      assert PlannableOne(op, disk, gate) ==> Planned(op, body, disk, gate);
    case Delete(path) =>
      assert PlannableOne(op, disk, gate) ==> Planned(op, "", disk, gate);
    case Update(path, hunks) =>
      PlannableUpdateIs(path, hunks, disk, gate);
  }

  lemma PlannableUpdateIs(path: string, hunks: seq<PatchApply.Hunk>, disk: Disk<string>, gate: Gate)
    ensures var op := Update(path, hunks); PlannableOne(op, disk, gate) <==> exists after :: Planned(op, after, disk, gate)
  {
    var op := Update(path, hunks);
    if path in disk {
      var before := disk[path];
      forall after ensures Gives(op, before, after) <==> HasBlocks(hunks) && UpdatedBy(hunks, before, after) {
        UpdateIs(path, hunks, before, after);
      }
      if after :| Planned(op, after, disk, gate) {
        GivingNeedsPlaces(op, before, after);
        forall other | UpdatedBy(hunks, before, other) ensures other == after {
          GivesOneContent(op, before, other, after);
        }
        assert PlannableOne(op, disk, gate);
      }
      if PlannableOne(op, disk, gate) {
        PatchApply.LeftmostExists(Lines.Split(before), hunks);
        var p :| |p| == |hunks| && PatchApply.Leftmost(Lines.Split(before), hunks, p);
        assert UpdatedBy(hunks, before, Lines.Join(PatchApply.Replaced(Lines.Split(before), hunks, p)));
        assert Planned(op, Lines.Join(PatchApply.Replaced(Lines.Split(before), hunks, p)), disk, gate);
      }
    }
  }
  // ---------------------------------------------------------------------------
  // Language-server edits
  // ---------------------------------------------------------------------------

  datatype Change =
    | Text(path: string, edits: seq<TextEdits.TextEdit>)
    | Create(path: string, overwrite: bool)
    | Rename(path: string, newPath: string)
    | Erase(path: string)

  /** An edit lists its operations in order, or as text edits per file and resource operations. */
  datatype WorkspaceEdit = WorkspaceEdit(ordered: seq<Change>, changes: map<string, seq<TextEdits.TextEdit>>, resourceOps: seq<Change>)

  function Touches(c: Change): set<string> {
    if c.Rename? then {c.path, c.newPath} else {c.path}
  }

  function TouchesAny(cs: seq<Change>): set<string> {
    if cs == [] then {} else Touches(cs[0]) + TouchesAny(cs[1..])
  }

  function Current(disk: Disk<Bytes>, path: string): Bytes {
    if path in disk then disk[path] else []
  }

  /** What applying text edits to a content gives. */
  ghost predicate TextGives(before: Bytes, edits: seq<TextEdits.TextEdit>, r: Result<Bytes, TextEdits.Error>) {
    exists starts :: TextEdits.IsLineStarts(before, starts)
      && r == TextEdits.Spliced(before, TextEdits.LastFirst(TextEdits.ResolveAll(before, starts, edits)))
  }

  /** What one operation does to the disk when nothing fails. */
  ghost predicate Does(c: Change, before: Disk<Bytes>, after: Disk<Bytes>) {
    match c
    case Text(path, edits) =>
      path in after && TextGives(Current(before, path), edits, Ok(after[path])) && after == before[path := after[path]]
    case Create(path, overwrite) => after == if path in before && !overwrite then before else before[path := []]
    case Rename(path, newPath) => after == before[newPath := Current(before, path)] - {path}
    case Erase(path) => after == before - {path}
  }

  /** An operation goes through: its files can be written and removed, and its text edits lie
      within the text. */
  ghost predicate Can(c: Change, disk: Disk<Bytes>, io: Io) {
    match c
    case Text(path, edits) => io.writes(path) && exists updated :: TextGives(Current(disk, path), edits, Ok(updated))
    case Create(path, overwrite) => (path in disk && !overwrite) || io.writes(path)
    case Rename(path, newPath) => io.writes(newPath) && io.removes(path)
    case Erase(path) => io.removes(path)
  }

  /** Some operation fails, those before it having taken effect. */
  ghost predicate FailsAt(cs: seq<Change>, before: Disk<Bytes>, io: Io, i: nat) {
    i < |cs| && exists mid | DoesAll(cs[..i], before, mid) :: !Can(cs[i], mid, io)
  }

  ghost predicate DoesAll(cs: seq<Change>, before: Disk<Bytes>, after: Disk<Bytes>)
    decreases |cs|
  {
    if cs == [] then after == before
    else exists mid :: Does(cs[0], before, mid) && DoesAll(cs[1..], mid, after)
  }

  /** Operations in the order they are applied: as listed, or creations, text edits in any
      order, then renames and deletions. */
  ghost predicate IsApplyOrder(edit: WorkspaceEdit, cs: seq<Change>) {
    if edit.ordered != [] then cs == edit.ordered
    else exists texts ::
      && cs == Kind(edit.resourceOps, true) + texts + Kind(edit.resourceOps, false)
      && |texts| == |edit.changes|
      && (forall t | t in texts :: t.Text? && t.path in edit.changes && edit.changes[t.path] == t.edits)
      && (forall i, j | 0 <= i < j < |texts| :: texts[i] != texts[j])
  }

  /** A resource operation as it is applied among the creations, or among the others. */
  function KindOne(r: Change, creates: bool): seq<Change> {
    match r
    case Create(path, _) => if creates then [Create(path, false)] else []
    case Rename(_, _) => if creates then [] else [r]
    case Erase(_) => if creates then [] else [r]
    case Text(_, _) => []
  }

  /** The resource operations that create, or those that do not, without their options. */
  function Kind(rs: seq<Change>, creates: bool): seq<Change> {
    if rs == [] then [] else KindOne(rs[0], creates) + Kind(rs[1..], creates)
  }

  lemma KindStep(rs: seq<Change>, i: nat, creates: bool)
    requires i < |rs|
    ensures Kind(rs[i..], creates) == KindOne(rs[i], creates) + Kind(rs[i + 1..], creates)
  {
    assert rs[i..][0] == rs[i] && rs[i..][1..] == rs[i + 1..];
  }

  method OrderedChanges(edit: WorkspaceEdit) returns (cs: seq<Change>)
    ensures IsApplyOrder(edit, cs)
  {
    if |edit.ordered| > 0 {
      return edit.ordered;
    }
    var creates, tail := SplitKinds(edit.resourceOps);
    var texts := TextChanges(edit.changes);
    cs := creates + texts + tail;
  }

  method SplitKinds(rs: seq<Change>) returns (creates: seq<Change>, tail: seq<Change>)
    ensures creates == Kind(rs, true) && tail == Kind(rs, false)
  {
    creates, tail := [], [];
    hide Kind;
    assert rs[0..] == rs;
    for i := 0 to |rs|
      invariant Kind(rs, true) == creates + Kind(rs[i..], true)
      invariant Kind(rs, false) == tail + Kind(rs[i..], false)
    {
      KindStep(rs, i, true);
      KindStep(rs, i, false);
      match rs[i] {
        case Create(path, _) => creates := creates + [Create(path, false)];
        case Rename(path, newPath) => tail := tail + [Rename(path, newPath)];
        case Erase(path) => tail := tail + [Erase(path)];
        case Text(_, _) =>
      }
    }
    NoKinds(rs);
  }

  lemma NoKinds(rs: seq<Change>)
    ensures Kind(rs[|rs|..], true) == Kind(rs[|rs|..], false) == []
  {
  }

  /** One text operation per file, in any order. */
  method TextChanges(changes: map<string, seq<TextEdits.TextEdit>>) returns (texts: seq<Change>)
    ensures |texts| == |changes|
    ensures forall t | t in texts :: t.Text? && t.path in changes && changes[t.path] == t.edits
    ensures forall i, j | 0 <= i < j < |texts| :: texts[i] != texts[j]
  {
    texts := [];
    var todo := changes.Keys;
    while todo != {}
      invariant todo <= changes.Keys && |texts| + |todo| == |changes|
      invariant forall t | t in texts :: t.Text? && t.path in changes && t.path !in todo && changes[t.path] == t.edits
      invariant forall i, j | 0 <= i < j < |texts| :: texts[i] != texts[j]
    {
      var p :| p in todo;
      texts := texts + [Text(p, changes[p])];
      todo := todo - {p};
    }
  }

  /** Every path the edit names, except the empty one. */
  function Affected(edit: WorkspaceEdit): set<string> {
    (TouchesAny(edit.ordered) + edit.changes.Keys + TouchesAny(edit.resourceOps)) - {""}
  }

  lemma {:induction false} TouchedEach(cs: seq<Change>, c: Change)
    requires c in cs
    ensures Touches(c) <= TouchesAny(cs)
  {
    if c != cs[0] {
      TouchedEach(cs[1..], c);
    }
  }

  lemma {:induction false} TouchesConcat(a: seq<Change>, b: seq<Change>)
    ensures TouchesAny(a + b) == TouchesAny(a) + TouchesAny(b)
  {
    if a == [] {
      assert a + b == b;
    } else {
      assert (a + b)[0] == a[0] && (a + b)[1..] == a[1..] + b;
      TouchesConcat(a[1..], b);
    }
  }

  lemma {:induction false} KindTouches(rs: seq<Change>, creates: bool)
    ensures TouchesAny(Kind(rs, creates)) <= TouchesAny(rs)
  {
    if rs != [] {
      KindTouches(rs[1..], creates);
      TouchesConcat(KindOne(rs[0], creates), Kind(rs[1..], creates));
    }
  }

  lemma {:induction false} TextsTouch(texts: seq<Change>, paths: set<string>)
    requires forall t | t in texts :: t.Text? && t.path in paths
    ensures TouchesAny(texts) <= paths
  {
    if texts != [] {
      assert texts[0] in texts;
      TextsTouch(texts[1..], paths);
    }
  }

  /** The paths snapshotted up front cover every operation, but for an empty path. */
  lemma AffectedCovers(edit: WorkspaceEdit, cs: seq<Change>)
    requires IsApplyOrder(edit, cs)
    ensures TouchesAny(cs) <= Affected(edit) + {""}
  {
    if edit.ordered == [] {
      var creates, tail := Kind(edit.resourceOps, true), Kind(edit.resourceOps, false);
      var texts: seq<Change> :| cs == creates + texts + tail && forall t | t in texts :: t.Text? && t.path in edit.changes;
      TouchesConcat(creates + texts, tail);
      TouchesConcat(creates, texts);
      KindTouches(edit.resourceOps, true);
      KindTouches(edit.resourceOps, false);
      TextsTouch(texts, edit.changes.Keys);
    }
  }

  /** A write that may fail, leaving anything at all in the file it was aimed at. */
  method TryWrite(ws: Workspace<Bytes>, path: string, content: Bytes, io: Io) returns (ok: bool)
    modifies ws
    ensures SameOutside({path}, old(ws.files), ws.files)
    ensures ok == io.writes(path) && (ok ==> ws.files == old(ws.files)[path := content])
  {
    ok := io.writes(path);
    if ok {
      ws.files := ws.files[path := content];
    } else {
      var torn: Option<Bytes> := *;
      ws.Put(path, torn);
    }
  }

  /** A removal that may fail; removing a missing file succeeds. */
  method TryRemove(ws: Workspace<Bytes>, path: string, io: Io) returns (ok: bool)
    modifies ws
    ensures SameOutside({path}, old(ws.files), ws.files)
    ensures ok == io.removes(path) && (ok ==> ws.files == old(ws.files) - {path})
  {
    ok := io.removes(path);
    if ok {
      ws.files := ws.files - {path};
    } else {
      var torn: Option<Bytes> := *;
      ws.Put(path, torn);
    }
  }

  method ApplyOne(ws: Workspace<Bytes>, c: Change, io: Io) returns (ok: bool)
    modifies ws
    ensures SameOutside(Touches(c), old(ws.files), ws.files)
    ensures ok == Can(c, old(ws.files), io) && (ok ==> Does(c, old(ws.files), ws.files))
  {
    match c {
      case Text(path, edits) =>
        var updated := TextEdits.ApplyTextEdits(Current(ws.files, path), edits);
        OneResult(Current(ws.files, path), edits, updated);
        if updated.Err? {
          return false;
        }
        ok := TryWrite(ws, path, updated.value, io);
      case Create(path, overwrite) =>
        if path in ws.files && !overwrite {
          return true;
        }
        ok := TryWrite(ws, path, [], io);
      case Erase(path) =>
        ok := TryRemove(ws, path, io);
      case Rename(path, newPath) =>
        ok := TryWrite(ws, newPath, Current(ws.files, path), io);
        if ok {
          ok := TryRemove(ws, path, io);
        }
    }
  }

  /** Text edits give one result. */
  lemma OneResult(before: Bytes, edits: seq<TextEdits.TextEdit>, r: Result<Bytes, TextEdits.Error>)
    requires TextGives(before, edits, r)
    ensures forall q :: TextGives(before, edits, q) ==> q == r
  {
    var starts :| TextEdits.IsLineStarts(before, starts)
                  && r == TextEdits.Spliced(before, TextEdits.LastFirst(TextEdits.ResolveAll(before, starts, edits)));
    forall q | TextGives(before, edits, q) ensures q == r {
      var others :| TextEdits.IsLineStarts(before, others)
                    && q == TextEdits.Spliced(before, TextEdits.LastFirst(TextEdits.ResolveAll(before, others, edits)));
      TextEdits.OneLineStarts(before, starts, others);
    }
  }

  lemma {:induction false} DoesAllThen(cs: seq<Change>, c: Change, before: Disk<Bytes>, mid: Disk<Bytes>, after: Disk<Bytes>)
    requires DoesAll(cs, before, mid) && Does(c, mid, after)
    ensures DoesAll(cs + [c], before, after)
    decreases |cs|
  {
    hide Does;
    if cs == [] {
      assert DoesAll([], after, after);
      assert ([] + [c])[1..] == [];
    } else {
      var next :| Does(cs[0], before, next) && DoesAll(cs[1..], next, mid);
      DoesAllThen(cs[1..], c, next, mid, after);
      assert (cs + [c])[1..] == cs[1..] + [c];
    }
  }

  lemma DoesOnce(c: Change, before: Disk<Bytes>, a: Disk<Bytes>, b: Disk<Bytes>)
    requires Does(c, before, a) && Does(c, before, b)
    ensures a == b
  {
    if c.Text? {
      OneResult(Current(before, c.path), c.edits, Ok(a[c.path]));
      assert a == before[c.path := a[c.path]] && b == before[c.path := b[c.path]];
    }
  }

  lemma {:induction false} DoesAllOnce(cs: seq<Change>, before: Disk<Bytes>, a: Disk<Bytes>, b: Disk<Bytes>)
    requires DoesAll(cs, before, a) && DoesAll(cs, before, b)
    ensures a == b
    decreases |cs|
  {
    if cs != [] {
      var x :| Does(cs[0], before, x) && DoesAll(cs[1..], x, a);
      var y :| Does(cs[0], before, y) && DoesAll(cs[1..], y, b);
      DoesOnce(cs[0], before, x, y);
      DoesAllOnce(cs[1..], x, a, b);
    }
  }

  /** Operations lead to one disk, so an operation that goes through there fails nowhere. */
  lemma FailsNot(cs: seq<Change>, before: Disk<Bytes>, io: Io, i: nat, mid: Disk<Bytes>)
    requires i < |cs| && DoesAll(cs[..i], before, mid) && Can(cs[i], mid, io)
    ensures !FailsAt(cs, before, io, i)
  {
    forall other | DoesAll(cs[..i], before, other) ensures other == mid {
      DoesAllOnce(cs[..i], before, other, mid);
    }
  }

  method ApplyChanges(ws: Workspace<Bytes>, cs: seq<Change>, io: Io) returns (ok: bool)
    modifies ws
    ensures SameOutside(TouchesAny(cs), old(ws.files), ws.files)
    ensures ok ==> DoesAll(cs, old(ws.files), ws.files)
    ensures ok <==> forall i :: !FailsAt(cs, old(ws.files), io, i)
  {
    hide Does, Touches, Can;
    ok := true;
    for i := 0 to |cs|
      invariant SameOutside(TouchesAny(cs), old(ws.files), ws.files)
      invariant ok && DoesAll(cs[..i], old(ws.files), ws.files)
      invariant forall k: nat | k < i :: !FailsAt(cs, old(ws.files), io, k)
    {
      ghost var mid := ws.files;
      ok := ApplyOne(ws, cs[i], io);
      TouchedEach(cs, cs[i]);
      if !ok {
        assert FailsAt(cs, old(ws.files), io, i);
        return;
      }
      FailsNot(cs, old(ws.files), io, i, mid);
      DoesAllThen(cs[..i], cs[i], old(ws.files), mid, ws.files);
      assert cs[..i + 1] == cs[..i] + [cs[i]];
    }
    assert cs[..|cs|] == cs;
  }

  /** Snapshots of exactly these paths, as the disk has them. */
  ghost predicate Shot<C>(files: Snapshots<C>, paths: set<string>, disk: Disk<C>) {
    && files.Keys == paths
    && forall p | p in paths :: files[p] == Capture(disk, p)
  }

  /** Snapshots every path under the turn just begun, in any order. */
  method SnapshotAll(cp: Checkpointer<Bytes>, id: string, paths: set<string>)
    requires StateOf(cp.sessions, id).active == Some(map[])
    modifies cp
    ensures StateOf(cp.sessions, id).history == StateOf(old(cp.sessions), id).history
    ensures StateOf(cp.sessions, id).active.Some? && Shot(StateOf(cp.sessions, id).active.value, paths, cp.disk.files)
    ensures forall other | other != id :: StateOf(cp.sessions, other) == StateOf(old(cp.sessions), other)
  {
    var todo := paths;
    while todo != {}
      invariant todo <= paths
      invariant StateOf(cp.sessions, id).history == StateOf(old(cp.sessions), id).history
      invariant StateOf(cp.sessions, id).active.Some? && Shot(StateOf(cp.sessions, id).active.value, paths - todo, cp.disk.files)
      invariant forall other | other != id :: StateOf(cp.sessions, other) == StateOf(old(cp.sessions), other)
    {
      var p :| p in todo;
      cp.Snapshot(id, p);
      todo := todo - {p};
    }
  }

  ghost function Shots<C>(paths: set<string>, disk: Disk<C>): Snapshots<C> {
    map p | p in paths :: Capture(disk, p)
  }

  /** What the rollback of a failed edit makes of the disk that the edit left: the files it
      named are put back as they were before, as far as that goes, but for one at the empty
      path, which is never snapshotted. If it named none, the empty turn is dropped and the
      undo reverts the checkpoint before it, if there is one. */
  ghost function RolledBack<C>(paths: set<string>, fates: Fates<C>, history: seq<Snapshots<C>>, before: Disk<C>, left: Disk<C>): Disk<C> {
    if paths != {} then RestoredBy(Shots(paths, before), fates, left)
    else if history == [] then left
    else RestoredBy(history[|history| - 1], fates, left)
  }

  lemma CommitThenUndo<C>(s: Session<C>, paths: set<string>, before: Disk<C>, left: Disk<C>, fates: Fates<C>)
    requires s.active.Some? && Shot(s.active.value, paths, before)
    ensures StepWith(Machine(left, Committed(s)), Undo, fates).disk == RolledBack(paths, fates, s.history, before, left)
  {
    var files := s.active.value;
    assert files == Shots(paths, before);
    if paths == {} {
      assert files == map[];
    } else {
      var p :| p in paths;
      assert p in files && files != map[];
      var h := Committed(s).history;
      assert h[|h| - 1] == files;
    }
  }

  /** Ends the turn, rolling it back if it failed. What cannot be put back is not reported. */
  method EndTurn(cp: Checkpointer<Bytes>, id: string, applied: bool, fates: Fates<Bytes>, ghost paths: set<string>, ghost before: Disk<Bytes>)
    requires StateOf(cp.sessions, id).active.Some? && Shot(StateOf(cp.sessions, id).active.value, paths, before)
    modifies cp, cp.disk
    ensures applied ==> cp.disk.files == old(cp.disk.files)
    ensures !applied ==> cp.disk.files == RolledBack(paths, fates, StateOf(old(cp.sessions), id).history, before, old(cp.disk.files))
    ensures forall other | other != id :: StateOf(cp.sessions, other) == StateOf(old(cp.sessions), other)
  {
    hide RestoredBy, Shot, RolledBack, Committed;
    CommitThenUndo(StateOf(cp.sessions, id), paths, before, cp.disk.files, fates);
    cp.CommitTurn(id);
    if !applied {
      var _ := cp.UndoLastTurn(id, fates);
    }
  }

  const LSP_SESSION := "lsp"

  /** Applies a language-server edit. Allowed, it is applied exactly when none of its operations
      fails, and they took effect in order; else what they left, which may be torn, is rolled
      back as far as its files can be put back. */
  method ApplyEdit(cp: Checkpointer<Bytes>, edit: WorkspaceEdit, allow: string -> bool, io: Io, fates: Fates<Bytes>) returns (applied: bool)
    modifies cp, cp.disk
    ensures (exists p :: p in Affected(edit) && !allow(p)) ==>
              !applied && cp.disk.files == old(cp.disk.files) && cp.sessions == old(cp.sessions)
    ensures (forall p | p in Affected(edit) :: allow(p)) ==>
              exists cs | IsApplyOrder(edit, cs) ::
                && (applied <==> forall i :: !FailsAt(cs, old(cp.disk.files), io, i))
                && if applied then DoesAll(cs, old(cp.disk.files), cp.disk.files)
                   else exists left | SameOutside(Affected(edit) + {""}, old(cp.disk.files), left) ::
                          cp.disk.files == RolledBack(Affected(edit), fates, StateOf(old(cp.sessions), LSP_SESSION).history, old(cp.disk.files), left)
    ensures forall id | id != LSP_SESSION :: StateOf(cp.sessions, id) == StateOf(old(cp.sessions), id)
  {
    var paths := Affected(edit);
    if p :| p in paths && !allow(p) {
      return false;
    }
    hide IsApplyOrder, DoesAll, Restored, RestoredBy, Shot, RolledBack, SameOutside, FailsAt;
    cp.BeginTurn(LSP_SESSION);
    SnapshotAll(cp, LSP_SESSION, paths);
    ghost var before := cp.disk.files;
    var cs := OrderedChanges(edit);
    AffectedCovers(edit, cs);
    applied := ApplyChanges(cp.disk, cs, io);
    WiderOutside(TouchesAny(cs), paths + {""}, before, cp.disk.files);
    EndTurn(cp, LSP_SESSION, applied, fates, paths, before);
    assert IsApplyOrder(edit, cs);
  }

  lemma WiderOutside<C>(paths: set<string>, more: set<string>, d: Disk<C>, e: Disk<C>)
    requires paths <= more && SameOutside(paths, d, e)
    ensures SameOutside(more, d, e)
  {
  }

  // ---------------------------------------------------------------------------
  // Single operations, file by file
  // ---------------------------------------------------------------------------

  /** What an operation that goes through leaves: edited text; an empty new file, or the file that is
      there; a file under its new name only; no file. Every other file is as it was. */
  lemma ChangeLeaves(c: Change, before: Disk<Bytes>, after: Disk<Bytes>, p: string)
    requires Does(c, before, after)
    ensures p !in Touches(c) ==> Capture(after, p) == Capture(before, p)
    ensures c.Text? ==>
              Capture(after, c.path).Some?
              && TextGives(if c.path in before then before[c.path] else [], c.edits, Ok(Capture(after, c.path).value))
    ensures c.Create? ==> Capture(after, c.path) == if c.path in before && !c.overwrite then Capture(before, c.path) else Some([])
    ensures c.Rename? && c.newPath != c.path ==> Capture(after, c.newPath) == Some(if c.path in before then before[c.path] else [])
    ensures c.Rename? || c.Erase? ==> Capture(after, c.path) == None
  {
    if c.Text? {
      assert after == before[c.path := after[c.path]];
    }
  }

  /** An operation fails exactly when a file it writes cannot be written, one it removes cannot be
      removed, or an edit of its text is out of bounds. */
  lemma ChangeGoesThroughExactlyIf(c: Change, disk: Disk<Bytes>, io: Io)
    ensures c.Text? ==> (Can(c, disk, io) <==> io.writes(c.path) && !TextGives(if c.path in disk then disk[c.path] else [], c.edits, Err(TextEdits.OutOfBounds)))
    ensures c.Create? ==> (Can(c, disk, io) <==> io.writes(c.path) || (c.path in disk && !c.overwrite))
    ensures c.Rename? ==> (Can(c, disk, io) <==> io.writes(c.newPath) && io.removes(c.path))
    ensures c.Erase? ==> (Can(c, disk, io) <==> io.removes(c.path))
  {
    if c.Text? {
      var content := Current(disk, c.path);
      SomeResult(content, c.edits);
      var r :| TextGives(content, c.edits, r);
      OneResult(content, c.edits, r);
      if r.Err? {
        assert r.error.OutOfBounds?;
      }
    }
  }

  lemma SomeResult(content: Bytes, edits: seq<TextEdits.TextEdit>)
    ensures exists r :: TextGives(content, edits, r)
  {
    TextEdits.LineStartsExist(content);
    var starts: seq<nat> :| TextEdits.IsLineStarts(content, starts);
    assert TextGives(content, edits, TextEdits.Spliced(content, TextEdits.LastFirst(TextEdits.ResolveAll(content, starts, edits))));
  }

  lemma KindOf(r: Change)
    ensures Kind([r], true) == if r.Create? then [Create(r.path, false)] else []
    ensures Kind([r], false) == if r.Rename? || r.Erase? then [r] else []
  {
    assert [r][1..] == [];
  }

  /** No creation, rename or deletion is left out, and each group keeps its order; a creation loses
      its leave to overwrite. */
  lemma {:induction false} KindConcat(a: seq<Change>, b: seq<Change>, creates: bool)
    ensures Kind(a + b, creates) == Kind(a, creates) + Kind(b, creates)
    ensures |a| == 1 && creates ==> Kind(a, creates) == if a[0].Create? then [Create(a[0].path, false)] else []
    ensures |a| == 1 && !creates ==> Kind(a, creates) == if a[0].Rename? || a[0].Erase? then a else []
  {
    hide KindOne;
    if a == [] {
      assert a + b == b;
    } else {
      assert (a + b)[0] == a[0] && (a + b)[1..] == a[1..] + b;
      KindConcat(a[1..], b, creates);
    }
    if |a| == 1 {
      assert a == [a[0]];
      KindOf(a[0]);
    }
  }

  predicate Names(c: Change, p: string) {
    c.path == p || (c.Rename? && c.newPath == p)
  }

  lemma {:induction false} TouchesAnyIs(cs: seq<Change>, p: string)
    ensures p in TouchesAny(cs) <==> exists c <- cs :: Names(c, p)
  {
    if cs != [] {
      TouchesAnyIs(cs[1..], p);
      assert forall c :: c in cs <==> c == cs[0] || c in cs[1..];
      assert p in Touches(cs[0]) <==> Names(cs[0], p);
    }
  }

  /** The files authorized and snapshotted up front are those some operation names, in whatever
      role. */
  lemma AffectedIs(edit: WorkspaceEdit, p: string)
    ensures p in Affected(edit) <==>
              p != "" && (p in edit.changes || (exists c <- edit.ordered :: Names(c, p)) || exists c <- edit.resourceOps :: Names(c, p))
  {
    TouchesAnyIs(edit.ordered, p);
    TouchesAnyIs(edit.resourceOps, p);
  }

  function Rank(c: Change): nat {
    if c.Create? then 0 else if c.Text? then 1 else 2
  }

  lemma {:induction false} KindsAre(rs: seq<Change>, creates: bool)
    ensures forall c <- Kind(rs, creates) :: Rank(c) == if creates then 0 else 2
  {
    if rs != [] {
      KindsAre(rs[1..], creates);
    }
  }

  /** Without an order of the server's own, files are created first and renamed or deleted last, and
      the text of each file is edited in between; its own order is kept. */
  lemma OrderIs(edit: WorkspaceEdit, cs: seq<Change>)
    requires IsApplyOrder(edit, cs)
    ensures edit.ordered != [] ==> cs == edit.ordered
    ensures edit.ordered == [] ==> forall i, j | 0 <= i < j < |cs| :: Rank(cs[i]) <= Rank(cs[j])
    ensures edit.ordered == [] ==> forall p <- edit.changes :: Text(p, edit.changes[p]) in cs
  {
    if edit.ordered == [] {
      var creates, tail := Kind(edit.resourceOps, true), Kind(edit.resourceOps, false);
      var texts: seq<Change> :| cs == creates + texts + tail && |texts| == |edit.changes|
        && (forall t | t in texts :: t.Text? && t.path in edit.changes && edit.changes[t.path] == t.edits)
        && (forall i, j | 0 <= i < j < |texts| :: texts[i] != texts[j]);
      KindsAre(edit.resourceOps, true);
      KindsAre(edit.resourceOps, false);
      RanksAscend(creates, texts, tail);
      forall p <- edit.changes ensures Text(p, edit.changes[p]) in cs {
        EachTextIsThere(texts, edit.changes, p);
      }
    }
  }

  lemma RanksAscend(creates: seq<Change>, texts: seq<Change>, tail: seq<Change>)
    requires (forall c <- creates :: Rank(c) == 0) && (forall c <- texts :: c.Text?) && (forall c <- tail :: Rank(c) == 2)
    ensures var cs := creates + texts + tail; forall i, j | 0 <= i < j < |cs| :: Rank(cs[i]) <= Rank(cs[j])
  {
    var cs := creates + texts + tail;
    forall i | 0 <= i < |cs| ensures Rank(cs[i]) == if i < |creates| then 0 else if i < |creates| + |texts| then 1 else 2 {
      if i < |creates| {
        assert cs[i] in creates;
      } else if i < |creates| + |texts| {
        assert cs[i] in texts;
      } else {
        assert cs[i] in tail;
      }
    }
  }

  /** As many different text operations as there are files to edit leave none out. */
  lemma EachTextIsThere(texts: seq<Change>, changes: map<string, seq<TextEdits.TextEdit>>, p: string)
    requires p in changes && |texts| == |changes|
    requires forall t | t in texts :: t.Text? && t.path in changes && changes[t.path] == t.edits
    requires forall i, j | 0 <= i < j < |texts| :: texts[i] != texts[j]
    ensures Text(p, changes[p]) in texts
  {
    var paths := PathsOf(texts);
    DistinctPathsOf(texts, changes);
    assert paths <= changes.Keys && |paths| == |changes.Keys|;
    SameSize(paths, changes.Keys);
    PathIsThere(texts, p);
  }

  function PathsOf(texts: seq<Change>): set<string> {
    if texts == [] then {} else PathsOf(texts[..|texts| - 1]) + {texts[|texts| - 1].path}
  }

  lemma {:induction false} PathIsThere(texts: seq<Change>, p: string)
    ensures p in PathsOf(texts) <==> exists t <- texts :: t.path == p
  {
    if texts != [] {
      PathIsThere(texts[..|texts| - 1], p);
      assert texts == texts[..|texts| - 1] + [texts[|texts| - 1]];
    }
  }

  lemma {:induction false} DistinctPathsOf(texts: seq<Change>, changes: map<string, seq<TextEdits.TextEdit>>)
    requires forall t | t in texts :: t.Text? && t.path in changes && changes[t.path] == t.edits
    requires forall i, j | 0 <= i < j < |texts| :: texts[i] != texts[j]
    ensures |PathsOf(texts)| == |texts| && PathsOf(texts) <= changes.Keys
  {
    if texts != [] {
      var front, last := texts[..|texts| - 1], texts[|texts| - 1];
      DistinctPathsOf(front, changes);
      PathIsThere(front, last.path);
      assert last in texts;
      forall t <- front ensures t.path != last.path {
        assert t in texts && t != last;
      }
    }
  }

  lemma SameSize(a: set<string>, b: set<string>)
    requires a <= b && |a| == |b|
    ensures a == b
  {
    if x :| x in b && x !in a {
      assert a + {x} <= b && |a + {x}| == |a| + 1;
      SmallerSet(a + {x}, b);
    }
  }

  lemma SmallerSet(a: set<string>, b: set<string>)
    requires a <= b
    ensures |a| <= |b|
  {
    assert b == a + (b - a);
  }

  // ---------------------------------------------------------------------------
  // When a failed edit changes nothing
  // ---------------------------------------------------------------------------

  /** A file is as it was after an attempt to put it back: that succeeds, or the file was not
      changed and is left alone, or what it is torn to happens to be what it was. */
  predicate Undone<C(==)>(was: Option<C>, now: Option<C>, fate: Fate<C>) {
    || fate.Back?
    || (now == was && !(was.Some? && fate.Torn?))
    || (was.Some? && fate.Torn? && was.value == fate.left)
  }

  /** A failed edit changes nothing exactly when each file it named was put back or never
      changed; and if it named none, when undoing the edit before it changes nothing. A file
      at the empty path is left aside. */
  lemma FailedEditChangesNothing<C>(paths: set<string>, fates: Fates<C>, history: seq<Snapshots<C>>, before: Disk<C>, left: Disk<C>)
    requires "" !in paths && SameOutside(paths + {""}, before, left)
    ensures var now := RolledBack(paths, fates, history, before, left);
            SameOutside({""}, before, now) <==>
              if paths != {} then forall p <- paths :: Undone(Capture(before, p), Capture(left, p), fates(p))
              else history == [] ||
                   forall p <- history[|history| - 1] | p != "" ::
                     PutBack(history[|history| - 1][p], Capture(before, p), fates(p)) == Capture(before, p)
  {
    var now := RolledBack(paths, fates, history, before, left);
    if paths != {} {
      forall p <- paths ensures Capture(now, p) == Capture(before, p) <==> Undone(Capture(before, p), Capture(left, p), fates(p)) {
        assert Shots(paths, before)[p] == Capture(before, p);
      }
    }
  }

  /** Before an edit that names some file, its rollback can be relied on, whatever the edit may
      leave of these files, exactly when each of them can be put back. */
  lemma RollbackIsGuaranteed(paths: set<string>, fates: Fates<Bytes>, history: seq<Snapshots<Bytes>>, before: Disk<Bytes>)
    requires "" !in paths && paths != {}
    ensures (forall left | SameOutside(paths + {""}, before, left) :: SameOutside({""}, before, RolledBack(paths, fates, history, before, left)))
            <==> forall p <- paths :: fates(p).Back? || (p in before && fates(p) == Torn(before[p]))
  {
    hide RolledBack;
    forall left | SameOutside(paths + {""}, before, left)
      ensures SameOutside({""}, before, RolledBack(paths, fates, history, before, left))
              <==> forall p <- paths :: Undone(Capture(before, p), Capture(left, p), fates(p))
    {
      FailedEditChangesNothing(paths, fates, history, before, left);
    }
    forall p | p in paths && !(fates(p).Back? || (p in before && fates(p) == Torn(before[p])))
      ensures exists left :: SameOutside(paths + {""}, before, left) && !Undone(Capture(before, p), Capture(left, p), fates(p))
    {
      var left := if fates(p).Torn? && p in before then before else if p in before then before - {p} else before[p := []];
      assert SameOutside(paths + {""}, before, left);
    }
  }

  /** Not an idle case: a write tears the file it names, and putting it back fails as well. */
  lemma TornFileStaysTorn()
    ensures var before: Disk<Bytes>, left: Disk<Bytes> := map["a" := [1]], map["a" := []];
            var now := RolledBack({"a"}, _ => Kept, [], before, left);
            SameOutside({"a", ""}, before, left) && Capture(now, "a") == Some([]) && now != before
  {
    var before: Disk<Bytes>, left: Disk<Bytes> := map["a" := [1]], map["a" := []];
    var now := RolledBack({"a"}, _ => Kept, [], before, left);
    assert Capture(now, "a") == Some([]) && Capture(before, "a") == Some([1]);
  }

  /** Nor this: creating a file at the empty path fails, and the edit before is undone for it,
      although every file could be put back. */
  lemma NamelessEditUndoesTheOneBefore(io: Io)
    requires !io.writes("")
    ensures var edit := WorkspaceEdit([Create("", false)], map[], []);
            var before: Disk<Bytes> := map["f" := [2]];
            && Affected(edit) == {}
            && (forall cs | IsApplyOrder(edit, cs) :: FailsAt(cs, before, io, 0))
            && Capture(RolledBack({}, _ => Back, [map["f" := Some([1])]], before, before), "f") == Some([1])
  {
    var edit := WorkspaceEdit([Create("", false)], map[], []);
    var before: Disk<Bytes> := map["f" := [2]];
    assert TouchesAny(edit.ordered) == {""} && TouchesAny(edit.resourceOps) == {};
    forall cs | IsApplyOrder(edit, cs) ensures FailsAt(cs, before, io, 0) {
      assert cs[..0] == [] && DoesAll(cs[..0], before, before);
    }
  }
}
