/** Context patches: locating each hunk's old block in a file and replacing it, left to
    right, resuming the search after the previous replacement. */
module PatchApply {
  import opened Wrappers
  import Lines

  /** One change region: the block to find and the block that replaces it. */
  datatype Hunk = Hunk(oldLines: seq<string>, newLines: seq<string>)

  /** `hunk` counts from 0. */
  datatype Failure = NoContext(hunk: nat) | NotFound(hunk: nat)

  predicate OccursAt<T(==)>(s: seq<T>, sub: seq<T>, i: nat) {
    i + |sub| <= |s| && s[i..i + |sub|] == sub
  }

  predicate Anchored(hunks: seq<Hunk>) {
    forall k | 0 <= k < |hunks| :: hunks[k].oldLines != []
  }

  /** Positions at which all old blocks occur in the file, in order and without overlap. */
  ghost predicate Placed(file: seq<string>, hunks: seq<Hunk>, p: seq<nat>) {
    && |p| == |hunks|
    && (forall k | 0 <= k < |p| :: OccursAt(file, hunks[k].oldLines, p[k]))
    && (forall j, k | 0 <= j < k < |p| :: p[j] + |hunks[j].oldLines| <= p[k])
  }

  /** No placement puts any block further left. */
  ghost predicate Leftmost(file: seq<string>, hunks: seq<Hunk>, p: seq<nat>) {
    && Placed(file, hunks, p)
    && forall q, k | Placed(file, hunks, q) && 0 <= k < |p| :: p[k] <= q[k]
  }

  /** The first line of the file after the last placed block. */
  ghost function End(hunks: seq<Hunk>, p: seq<nat>): nat
    requires |p| == |hunks|
  {
    if p == [] then 0 else p[|p| - 1] + |hunks[|p| - 1].oldLines|
  }

  ghost function Between(file: seq<string>, i: nat, j: nat): seq<string> {
    if i <= j <= |file| then file[i..j] else []
  }

  /** What the file up to End becomes: each block replaced, the lines between kept. */
  ghost function Written(file: seq<string>, hunks: seq<Hunk>, p: seq<nat>): seq<string>
    requires |p| == |hunks|
  {
    if p == [] then []
    else
      var n := |p| - 1;
      Written(file, hunks[..n], p[..n]) + Between(file, End(hunks[..n], p[..n]), p[n]) + hunks[n].newLines
  }

  /** The whole file with each block replaced where it is placed. */
  ghost function Rebuilt(file: seq<string>, hunks: seq<Hunk>, p: seq<nat>): seq<string>
    requires |p| == |hunks|
  {
    Written(file, hunks, p) + Between(file, End(hunks, p), |file|)
  }

  lemma PlacedPrefix(file: seq<string>, hunks: seq<Hunk>, p: seq<nat>, n: nat)
    requires Placed(file, hunks, p) && n <= |p|
    ensures Placed(file, hunks[..n], p[..n])
  {
  }

  ghost predicate Placeable(file: seq<string>, hunks: seq<Hunk>) {
    exists p :: Placed(file, hunks, p)
  }

  lemma PlaceablePrefix(file: seq<string>, hunks: seq<Hunk>, n: nat)
    requires n <= |hunks| && Placeable(file, hunks)
    ensures Placeable(file, hunks[..n])
  {
    var p :| Placed(file, hunks, p);
    PlacedPrefix(file, hunks, p, n);
  }

  /** Wherever else the next block may be placed, it lies at or after the end of a leftmost
      placement of the blocks before it. */
  lemma NextBlock(file: seq<string>, hunks: seq<Hunk>, h: Hunk, p: seq<nat>, q: seq<nat>)
    requires Leftmost(file, hunks, p) && Placed(file, hunks + [h], q)
    ensures OccursAt(file, h.oldLines, q[|p|]) && End(hunks, p) <= q[|p|]
    ensures forall k | 0 <= k < |p| :: p[k] <= q[k]
  {
    var n, hs := |p|, hunks + [h];
    assert hs[..n] == hunks && hs[n] == h;
    PlacedPrefix(file, hs, q, n);
    forall k | 0 <= k < n ensures p[k] <= q[k] {
      assert p[k] <= q[..n][k];
    }
    assert OccursAt(file, hs[n].oldLines, q[n]);
    if n > 0 {
      assert q[n - 1] + |hs[n - 1].oldLines| <= q[n];
    }
  }

  /** Taking the first occurrence after a leftmost placement is leftmost again: the greedy
      choice never rules out a later hunk. */
  lemma ExtendLeftmost(file: seq<string>, hunks: seq<Hunk>, h: Hunk, p: seq<nat>, i: nat)
    requires Leftmost(file, hunks, p) && End(hunks, p) <= i && OccursAt(file, h.oldLines, i)
    requires forall j: nat | End(hunks, p) <= j < i :: !OccursAt(file, h.oldLines, j)
    ensures Leftmost(file, hunks + [h], p + [i])
  {
    ExtendPlaced(file, hunks, h, p, i);
    forall q, k | Placed(file, hunks + [h], q) && 0 <= k < |p + [i]| ensures (p + [i])[k] <= q[k] {
      NextBlock(file, hunks, h, p, q);
    }
  }

  lemma ExtendPlaced(file: seq<string>, hunks: seq<Hunk>, h: Hunk, p: seq<nat>, i: nat)
    requires Placed(file, hunks, p) && End(hunks, p) <= i && OccursAt(file, h.oldLines, i)
    ensures Placed(file, hunks + [h], p + [i])
  {
    var hs, r := hunks + [h], p + [i];
    forall j, k | 0 <= j < k < |r| ensures r[j] + |hs[j].oldLines| <= r[k] {
      if k == |p| && j < |p| - 1 {
        assert p[j] + |hunks[j].oldLines| <= p[|p| - 1];
      }
    }
  }

  /** The first index at or after `from` where `sub` runs, or -1. */
  method IndexOfSubslice(s: seq<string>, sub: seq<string>, from: nat) returns (r: int)
    ensures r == -1 || (from <= r && sub != [] && OccursAt(s, sub, r))
    ensures r >= 0 ==> r + |sub| <= |s|
    ensures r >= 0 ==> forall j: nat | from <= j < r :: !OccursAt(s, sub, j)
    ensures r == -1 && sub != [] ==> forall j: nat | from <= j :: !OccursAt(s, sub, j)
  {
    if |sub| == 0 || |sub| > |s| {
      return -1;
    }
    var i := from;
    while i <= |s| - |sub|
      invariant from <= i
      invariant forall j: nat | from <= j < i :: !OccursAt(s, sub, j)
    {
      var matched := true;
      var j := 0;
      while j < |sub|
        invariant 0 <= j <= |sub| && matched
        invariant forall x | 0 <= x < j :: s[i + x] == sub[x]
      {
        if s[i + j] != sub[j] {
          matched := false;
          break;
        }
        j := j + 1;
      }
      if matched {
        return i;
      }
      assert s[i..i + |sub|][j] == s[i + j];
      i := i + 1;
    }
    return -1;
  }

  /** The loop state once `done` is applied: the rewritten file and where to resume in it. */
  ghost predicate Applied(file: seq<string>, done: seq<Hunk>, p: seq<nat>, lines: seq<string>, cursor: nat) {
    && Leftmost(file, done, p)
    && End(done, p) <= |file|
    && cursor <= |lines|
    && lines[..cursor] == Written(file, done, p)
    && lines[cursor..] == file[End(done, p)..]
  }

  /** Two files that read the same from `end` and from `cursor` on hold the same blocks there. */
  lemma SameTail<T>(file: seq<T>, end: nat, lines: seq<T>, cursor: nat, sub: seq<T>, d: nat)
    requires end <= |file| && cursor <= |lines| && file[end..] == lines[cursor..]
    ensures OccursAt(file, sub, end + d) <==> OccursAt(lines, sub, cursor + d)
  {
    if d + |sub| <= |file| - end {
      Reslice(file, end, d, |sub|);
      Reslice(lines, cursor, d, |sub|);
    }
  }

  lemma Reslice<T>(s: seq<T>, from: nat, d: nat, n: nat)
    requires from + d + n <= |s|
    ensures s[from..][d..d + n] == s[from + d..from + d + n]
  {
  }

  lemma AppliedMeans(file: seq<string>, done: seq<Hunk>, p: seq<nat>, lines: seq<string>, cursor: nat)
    requires Applied(file, done, p, lines, cursor)
    ensures |p| == |done| && Placeable(file, done) && Leftmost(file, done, p) && lines == Rebuilt(file, done, p)
  {
    assert lines == lines[..cursor] + lines[cursor..];
  }

  lemma Start(file: seq<string>)
    ensures Applied(file, [], [], file, 0)
  {
    assert Placed(file, [], []);
  }

  /** The first occurrence past the cursor, replaced: `next` is the rewritten file. */
  lemma Advance(file: seq<string>, done: seq<Hunk>, h: Hunk, p: seq<nat>, lines: seq<string>, cursor: nat, d: nat, next: seq<string>)
    requires Applied(file, done, p, lines, cursor) && OccursAt(lines, h.oldLines, cursor + d)
    requires forall x: nat | cursor <= x < cursor + d :: !OccursAt(lines, h.oldLines, x)
    requires cursor + d + |h.oldLines| <= |lines|
    requires next == lines[..cursor + d] + h.newLines + lines[cursor + d + |h.oldLines|..]
    ensures Applied(file, done + [h], p + [End(done, p) + d], next, cursor + d + |h.newLines|)
  {
    PlacedLength(file, done, p);
    AdvanceLeftmost(file, done, h, p, lines, cursor, d);
    AdvanceText(file, done, h, p, lines, cursor, d, next);
  }

  lemma AdvanceText(file: seq<string>, done: seq<Hunk>, h: Hunk, p: seq<nat>, lines: seq<string>, cursor: nat, d: nat, next: seq<string>)
    requires |p| == |done| && End(done, p) <= |file| && cursor <= |lines|
    requires lines[..cursor] == Written(file, done, p) && lines[cursor..] == file[End(done, p)..]
    requires cursor + d + |h.oldLines| <= |lines|
    requires next == lines[..cursor + d] + h.newLines + lines[cursor + d + |h.oldLines|..]
    ensures var hs, r, resume := done + [h], p + [End(done, p) + d], cursor + d + |h.newLines|;
            && End(hs, r) <= |file| && resume <= |next|
            && next[..resume] == Written(file, hs, r) && next[resume..] == file[End(hs, r)..]
  {
    hide Written;
    Splice(file, End(done, p), lines, cursor, d, |h.oldLines|, h.newLines, next);
    AdvanceWritten(file, done, h, p, End(done, p) + d);
  }

  /** No block before the first occurrence in one file, and so none in the other. */
  lemma SameTailNone(file: seq<string>, end: nat, lines: seq<string>, cursor: nat, sub: seq<string>, d: nat)
    requires end <= |file| && cursor <= |lines| && file[end..] == lines[cursor..]
    requires forall x: nat | cursor <= x < cursor + d :: !OccursAt(lines, sub, x)
    ensures forall x: nat | end <= x < end + d :: !OccursAt(file, sub, x)
  {
    hide OccursAt;
    forall x: nat | end <= x < end + d ensures !OccursAt(file, sub, x) {
      SameTail(file, end, lines, cursor, sub, x - end);
      assert !OccursAt(lines, sub, cursor + (x - end));
    }
  }

  lemma AdvanceLeftmost(file: seq<string>, done: seq<Hunk>, h: Hunk, p: seq<nat>, lines: seq<string>, cursor: nat, d: nat)
    requires |p| == |done| && Leftmost(file, done, p) && End(done, p) <= |file| && cursor <= |lines|
    requires lines[cursor..] == file[End(done, p)..] && OccursAt(lines, h.oldLines, cursor + d)
    requires forall x: nat | cursor <= x < cursor + d :: !OccursAt(lines, h.oldLines, x)
    ensures Leftmost(file, done + [h], p + [End(done, p) + d])
  {
    hide OccursAt, Leftmost, Placed, End;
    var end := End(done, p);
    SameTail(file, end, lines, cursor, h.oldLines, d);
    SameTailNone(file, end, lines, cursor, h.oldLines, d);
    ExtendLeftmost(file, done, h, p, end + d);
  }

  lemma AdvanceWritten(file: seq<string>, done: seq<Hunk>, h: Hunk, p: seq<nat>, at: nat)
    requires |p| == |done| && End(done, p) <= at <= |file|
    ensures Written(file, done + [h], p + [at]) == Written(file, done, p) + file[End(done, p)..at] + h.newLines
    ensures End(done + [h], p + [at]) == at + |h.oldLines|
  {
    assert (done + [h])[..|p|] == done && (p + [at])[..|p|] == p;
  }

  /** One replacement d lines past the cursor, seen from the original file. */
  lemma Splice<T>(file: seq<T>, end: nat, lines: seq<T>, cursor: nat, d: nat, n: nat, block: seq<T>, next: seq<T>)
    requires end <= |file| && cursor <= |lines| && file[end..] == lines[cursor..]
    requires cursor + d + n <= |lines| && next == lines[..cursor + d] + block + lines[cursor + d + n..]
    ensures end + d + n <= |file| && cursor + d + |block| <= |next|
    ensures next[..cursor + d + |block|] == lines[..cursor] + file[end..end + d] + block
    ensures next[cursor + d + |block|..] == file[end + d + n..]
  {
    assert |file| - end == |lines| - cursor;
    assert lines[cursor..][..d] == file[end..][..d];
    assert lines[..cursor + d] == lines[..cursor] + lines[cursor..][..d];
    assert file[end..end + d] == file[end..][..d];
    assert lines[cursor..][d + n..] == file[end..][d + n..];
    assert lines[cursor + d + n..] == lines[cursor..][d + n..];
    assert file[end + d + n..] == file[end..][d + n..];
  }

  lemma Stuck(file: seq<string>, done: seq<Hunk>, h: Hunk, p: seq<nat>, lines: seq<string>, cursor: nat)
    requires Applied(file, done, p, lines, cursor)
    requires forall j: nat | cursor <= j :: !OccursAt(lines, h.oldLines, j)
    ensures !Placeable(file, done + [h])
  {
    hide OccursAt, Written;
    forall q ensures !Placed(file, done + [h], q) {
      if Placed(file, done + [h], q) {
        NextBlock(file, done, h, p, q);
        SameTail(file, End(done, p), lines, cursor, h.oldLines, q[|p|] - End(done, p));
        assert false;
      }
    }
  }

  /** Succeeds exactly when every hunk has context and all the old blocks can be placed in
      order without overlap; then the result replaces each block at its leftmost placement.
      On failure the reported hunk is the first that cannot be placed after those before it. */
  method ApplyHunks(before: string, hunks: seq<Hunk>) returns (r: Result<string, Failure>)
    ensures r.Ok? <==> Anchored(hunks) && Placeable(Lines.Split(before), hunks)
    ensures r.Ok? ==> exists p :: Leftmost(Lines.Split(before), hunks, p)
                                  && r.value == Lines.Join(Rebuilt(Lines.Split(before), hunks, p))
    ensures r.Err? ==>
              var k, file := r.error.hunk, Lines.Split(before);
              && k < |hunks| && Anchored(hunks[..k]) && Placeable(file, hunks[..k])
              && (r.error.NoContext? <==> hunks[k].oldLines == [])
              && (r.error.NotFound? ==> !Placeable(file, hunks[..k + 1]))
  {
    hide OccursAt, Written, Placed, Leftmost, Applied;
    var file := Lines.Split(before);
    var lines := file;
    var cursor: nat := 0;
    ghost var p: seq<nat> := [];
    Start(file);
    for hi := 0 to |hunks|
      invariant Anchored(hunks[..hi]) && Applied(file, hunks[..hi], p, lines, cursor)
    {
      var h := hunks[hi];
      assert hunks[..hi + 1] == hunks[..hi] + [h];
      AppliedMeans(file, hunks[..hi], p, lines, cursor);
      if |h.oldLines| == 0 {
        return Err(NoContext(hi));
      }
      var idx := IndexOfSubslice(lines, h.oldLines, cursor);
      if idx < 0 {
        Stuck(file, hunks[..hi], h, p, lines, cursor);
        if Placeable(file, hunks) {
          PlaceablePrefix(file, hunks, hi + 1);
        }
        return Err(NotFound(hi));
      }
      var next := lines[..idx] + h.newLines + lines[idx + |h.oldLines|..];
      Advance(file, hunks[..hi], h, p, lines, cursor, idx - cursor, next);
      p := p + [End(hunks[..hi], p) + idx - cursor];
      lines := next;
      cursor := idx + |h.newLines|;
    }
    assert hunks[..|hunks|] == hunks;
    AppliedMeans(file, hunks, p, lines, cursor);
    r := Ok(Lines.Join(lines));
  }

  // ---------------------------------------------------------------------------
  // What is rebuilt, block by block
  // ---------------------------------------------------------------------------

  /** The blocks replaced one by one, the last one first, so that those before it stay where they
      are. */
  ghost function Replaced(file: seq<string>, hunks: seq<Hunk>, p: seq<nat>): seq<string>
    requires |p| == |hunks|
    decreases |p|
  {
    if p == [] then file
    else
      var n := |p| - 1;
      var at, resume := p[n], p[n] + |hunks[n].oldLines|;
      Replaced(if resume <= |file| then file[..at] + hunks[n].newLines + file[resume..] else file, hunks[..n], p[..n])
  }

  lemma PrefixSlice<T>(s: seq<T>, c: nat, i: nat, j: nat)
    requires i <= j <= c <= |s|
    ensures s[..c][i..j] == s[i..j]
  {
  }

  /** What is written depends on the file only as far as the last block. */
  lemma {:induction false} WrittenOfPrefix(file: seq<string>, other: seq<string>, c: nat, hunks: seq<Hunk>, p: seq<nat>)
    requires Placed(file, hunks, p) && End(hunks, p) <= c <= |file| && c <= |other| && file[..c] == other[..c]
    ensures Written(file, hunks, p) == Written(other, hunks, p) && Placed(other, hunks, p)
    decreases |p|
  {
    if p != [] {
      var n := |p| - 1;
      PlacedPrefix(file, hunks, p, n);
      EndBefore(file, hunks, p);
      WrittenOfPrefix(file, other, c, hunks[..n], p[..n]);
      var e := End(hunks[..n], p[..n]);
      PrefixSlice(file, c, e, p[n]);
      PrefixSlice(other, c, e, p[n]);
      PlacedOfPrefix(file, other, c, hunks, p);
    }
  }

  lemma PlacedOfPrefix(file: seq<string>, other: seq<string>, c: nat, hunks: seq<Hunk>, p: seq<nat>)
    requires Placed(file, hunks, p) && End(hunks, p) <= c <= |file| && c <= |other| && file[..c] == other[..c]
    ensures Placed(other, hunks, p)
  {
    forall k | 0 <= k < |p| ensures OccursAt(other, hunks[k].oldLines, p[k]) {
      var i, n := p[k], |hunks[k].oldLines|;
      assert OccursAt(file, hunks[k].oldLines, i);
      assert k < |p| - 1 ==> p[k] + |hunks[k].oldLines| <= p[|p| - 1];
      PrefixSlice(file, c, i, i + n);
      PrefixSlice(other, c, i, i + n);
    }
  }

  lemma EndBefore(file: seq<string>, hunks: seq<Hunk>, p: seq<nat>)
    requires Placed(file, hunks, p) && p != []
    ensures var n := |p| - 1; End(hunks[..n], p[..n]) <= p[n] && p[n] + |hunks[n].oldLines| <= |file|
  {
    var n := |p| - 1;
    assert OccursAt(file, hunks[n].oldLines, p[n]);
    if n > 0 {
      assert p[n - 1] + |hunks[n - 1].oldLines| <= p[n];
    }
  }

  lemma EndWithin(file: seq<string>, hunks: seq<Hunk>, p: seq<nat>)
    requires Placed(file, hunks, p)
    ensures |p| == |hunks| && End(hunks, p) <= |file| && Rebuilt(file, hunks, p) == Written(file, hunks, p) + file[End(hunks, p)..]
  {
    hide Written;
    if p != [] {
      EndBefore(file, hunks, p);
    }
  }

  lemma LastWritten(file: seq<string>, hunks: seq<Hunk>, p: seq<nat>)
    requires Placed(file, hunks, p) && p != []
    ensures |p| == |hunks|
    ensures var n := |p| - 1;
            var e := End(hunks[..n], p[..n]);
            && e <= p[n] <= p[n] + |hunks[n].oldLines| == End(hunks, p) <= |file| && Placed(file, hunks[..n], p[..n])
            && Written(file, hunks, p) == Written(file, hunks[..n], p[..n]) + file[e..p[n]] + hunks[n].newLines
  {
    EndBefore(file, hunks, p);
    PlacedPrefix(file, hunks, p, |p| - 1);
  }

  lemma LastReplaced(file: seq<string>, hunks: seq<Hunk>, p: seq<nat>)
    requires |p| == |hunks| && p != [] && End(hunks, p) <= |file|
    ensures var n := |p| - 1;
            Replaced(file, hunks, p) == Replaced(file[..p[n]] + hunks[n].newLines + file[End(hunks, p)..], hunks[..n], p[..n])
  {
  }

  lemma Around<T>(done: seq<T>, file: seq<T>, e: nat, at: nat, resume: nat, block: seq<T>)
    requires e <= at <= resume <= |file|
    ensures var next := file[..at] + block + file[resume..];
            next[..at] == file[..at] && done + next[e..] == done + file[e..at] + block + file[resume..]
  {
    var next := file[..at] + block + file[resume..];
    assert next[e..] == file[e..at] + block + file[resume..];
    assert done + (file[e..at] + block + file[resume..]) == done + file[e..at] + block + file[resume..];
  }

  /** Rebuilding a file replaces each block where it is placed, and nothing else. */
  lemma {:induction false} RebuiltReplaces(file: seq<string>, hunks: seq<Hunk>, p: seq<nat>)
    requires |p| == |hunks| && Placed(file, hunks, p)
    ensures Rebuilt(file, hunks, p) == Replaced(file, hunks, p)
    decreases |p|
  {
    if p == [] {
      assert file[0..] == file;
    } else {
      hide Placed, Written, Replaced, Rebuilt, End;
      var n := |p| - 1;
      LastWritten(file, hunks, p);
      EndWithin(file, hunks, p);
      LastReplaced(file, hunks, p);
      var front, q, resume := hunks[..n], p[..n], End(hunks, p);
      var next := file[..p[n]] + hunks[n].newLines + file[resume..];
      Around(Written(file, front, q), file, End(front, q), p[n], resume, hunks[n].newLines);
      WrittenOfPrefix(file, next, p[n], front, q);
      EndWithin(next, front, q);
      RebuiltReplaces(next, front, q);
    }
  }

  lemma {:induction false} FirstOccurrence(file: seq<string>, sub: seq<string>, from: nat, at: nat)
    requires from <= at && OccursAt(file, sub, at)
    ensures exists i: nat | from <= i <= at :: OccursAt(file, sub, i) && forall j: nat | from <= j < i :: !OccursAt(file, sub, j)
    decreases at - from
  {
    hide OccursAt;
    if OccursAt(file, sub, from) {
      assert forall j: nat | from <= j < from :: !OccursAt(file, sub, j);
    } else {
      FirstOccurrence(file, sub, from + 1, at);
      var i: nat :| from + 1 <= i <= at && OccursAt(file, sub, i) && forall j: nat | from + 1 <= j < i :: !OccursAt(file, sub, j);
      assert forall j: nat | from <= j < i :: !OccursAt(file, sub, j);
    }
  }

  lemma NothingPlaced(file: seq<string>)
    ensures Leftmost(file, [], [])
  {
    assert Placed(file, [], []);
  }

  lemma PlacedLength(file: seq<string>, hunks: seq<Hunk>, p: seq<nat>)
    requires Placed(file, hunks, p)
    ensures |p| == |hunks|
  {
  }

  /** Blocks that can be placed at all have a leftmost placement. */
  lemma {:induction false} LeftmostExists(file: seq<string>, hunks: seq<Hunk>)
    requires Placeable(file, hunks)
    ensures exists p :: |p| == |hunks| && Leftmost(file, hunks, p)
    decreases |hunks|
  {
    hide OccursAt, Leftmost, Placed, End;
    if hunks == [] {
      NothingPlaced(file);
    } else {
      var n := |hunks| - 1;
      var front, h := hunks[..n], hunks[n];
      PlaceablePrefix(file, hunks, n);
      LeftmostExists(file, front);
      var p :| |p| == n && Leftmost(file, front, p);
      var q :| Placed(file, hunks, q);
      PlacedLength(file, hunks, q);
      assert hunks == front + [h];
      NextBlock(file, front, h, p, q);
      FirstOccurrence(file, h.oldLines, End(front, p), q[n]);
      ExtendAnyhow(file, front, h, p);
    }
  }

  lemma ExtendAnyhow(file: seq<string>, hunks: seq<Hunk>, h: Hunk, p: seq<nat>)
    requires |p| == |hunks| && Leftmost(file, hunks, p)
    requires exists i: nat | End(hunks, p) <= i :: OccursAt(file, h.oldLines, i) && forall j: nat | End(hunks, p) <= j < i :: !OccursAt(file, h.oldLines, j)
    ensures exists q :: |q| == |hunks| + 1 && Leftmost(file, hunks + [h], q)
  {
    hide OccursAt, Leftmost, End;
    var i: nat :| End(hunks, p) <= i && OccursAt(file, h.oldLines, i) && forall j: nat | End(hunks, p) <= j < i :: !OccursAt(file, h.oldLines, j);
    ExtendLeftmost(file, hunks, h, p, i);
    assert Leftmost(file, hunks + [h], p + [i]);
  }
}
