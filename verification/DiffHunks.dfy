/** Unified-diff hunks: grouping an edit script into runs with context, and reading the
    result back by its header line numbers alone. */
module DiffHunks {
  import opened LineDiff
  import opened Wrappers
  import Lines

  /** Unchanged lines shown on each side of a change. */
  const CONTEXT := 3

  /** A header range as printed: "line" for a single line, "line,count" otherwise. */
  datatype Range = Bare(line: int) | Pair(line: int, count: nat) {
    function Count(): nat {
      if Bare? then 1 else count
    }

    /** How many lines of the file precede the range: an empty range names the line
        before it, any other range its own first line. */
    function Before(): int {
      if Count() == 0 then line else line - 1
    }
  }

  datatype Hunk = Hunk(oldRange: Range, newRange: Range, body: seq<Op>)

  function RangeSpec(start: int, count: nat): (r: Range)
    ensures r.Before() == start - 1 && r.Count() == count
  {
    match count
    case 0 => Pair(start - 1, 0)
    case 1 => Bare(start)
    case _ => Pair(start, count)
  }

  predicate Changed(ops: seq<Op>, k: nat)
    requires k < |ops|
  {
    ops[k].kind != Equal
  }

  /** Position k lies within CONTEXT of a change among the first `limit` operations. */
  ghost predicate Near(ops: seq<Op>, limit: nat, k: int)
    requires limit <= |ops|
  {
    exists c | 0 <= c < limit :: Changed(ops, c) && c - CONTEXT <= k <= c + CONTEXT
  }

  ghost predicate InSome(ranges: seq<(nat, nat)>, k: int) {
    exists r | 0 <= r < |ranges| :: ranges[r].0 <= k < ranges[r].1
  }

  /** Non-empty op ranges, in order, with at least one operation between neighbours. */
  ghost predicate Spaced(ranges: seq<(nat, nat)>, n: nat) {
    && (forall r | 0 <= r < |ranges| :: ranges[r].0 < ranges[r].1 <= n)
    && (forall q, r | 0 <= q < r < |ranges| :: ranges[q].1 < ranges[r].0)
  }

  /** The grouping a unified diff asks for: the ranges hold exactly the operations within
      CONTEXT of a change, each once, and neighbours are kept apart by a shown-nowhere line. */
  ghost predicate Grouping(ops: seq<Op>, ranges: seq<(nat, nat)>) {
    && Spaced(ranges, |ops|)
    && (forall k | 0 <= k < |ops| :: InSome(ranges, k) <==> Near(ops, |ops|, k))
  }

  ghost function HunkAt(ops: seq<Op>, s: nat, e: nat): Hunk
    requires s <= e <= |ops|
  {
    Hunk(RangeSpec(1 + |OldSide(ops[..s])|, |OldSide(ops[s..e])|),
         RangeSpec(1 + |NewSide(ops[..s])|, |NewSide(ops[s..e])|),
         ops[s..e])
  }

  /** The hunks of the ranges from the r-th on. */
  ghost function HunksFrom(ops: seq<Op>, ranges: seq<(nat, nat)>, r: nat): seq<Hunk>
    requires Spaced(ranges, |ops|) && r <= |ranges|
    decreases |ranges| - r
  {
    if r == |ranges| then []
    else [HunkAt(ops, ranges[r].0, ranges[r].1)] + HunksFrom(ops, ranges, r + 1)
  }

  ghost function HunksAt(ops: seq<Op>, ranges: seq<(nat, nat)>): seq<Hunk>
    requires Spaced(ranges, |ops|)
  {
    HunksFrom(ops, ranges, 0)
  }

  // ---------------------------------------------------------------------------
  // Applying hunks
  // ---------------------------------------------------------------------------

  /** Applies hunks by their headers: copy up to the stated old line, check the stated old
      lines against the body and the stated new position against what has been written so
      far, then write the body's new side. `cursor` lines are consumed, `made` are written. */
  ghost function ApplyFrom(file: seq<string>, hunks: seq<Hunk>, cursor: nat, made: nat): Option<seq<string>>
    requires cursor <= |file|
    decreases |hunks|
  {
    if hunks == [] then Some(file[cursor..])
    else
      var h := hunks[0];
      var at, end := h.oldRange.Before(), h.oldRange.Before() + h.oldRange.Count();
      if !(cursor <= at && end <= |file|) || file[at..end] != OldSide(h.body) then None
      else if h.newRange.Count() != |NewSide(h.body)| || h.newRange.Before() != made + at - cursor then None
      else
        match ApplyFrom(file, hunks[1..], end, made + at - cursor + h.newRange.Count())
        case None => None
        case Some(rest) => Some(file[cursor..at] + NewSide(h.body) + rest)
  }

  ghost function Apply(file: seq<string>, hunks: seq<Hunk>): Option<seq<string>> {
    ApplyFrom(file, hunks, 0, 0)
  }

  ghost function Invert(ops: seq<Op>): (inv: seq<Op>)
    ensures |inv| == |ops|
    ensures forall k | 0 <= k < |ops| :: inv[k].text == ops[k].text && (inv[k].kind == Equal <==> ops[k].kind == Equal)
  {
    seq(|ops|, k requires 0 <= k < |ops| =>
      Op(match ops[k].kind case Equal => Equal case Delete => Insert case Insert => Delete, ops[k].text))
  }

  /** A hunk read backwards: the sides swap. */
  ghost function Reverse(h: Hunk): Hunk {
    Hunk(h.newRange, h.oldRange, Invert(h.body))
  }

  ghost function Reversed(hunks: seq<Hunk>): seq<Hunk> {
    if hunks == [] then [] else [Reverse(hunks[0])] + Reversed(hunks[1..])
  }

  lemma {:induction false} InvertSwapsSides(ops: seq<Op>)
    ensures OldSide(Invert(ops)) == NewSide(ops) && NewSide(Invert(ops)) == OldSide(ops)
  {
    if ops != [] {
      assert Invert(ops)[1..] == Invert(ops[1..]);
      InvertSwapsSides(ops[1..]);
    }
  }

  lemma {:induction false} EqualRun(ops: seq<Op>)
    requires forall k | 0 <= k < |ops| :: !Changed(ops, k)
    ensures OldSide(ops) == NewSide(ops)
  {
    if ops != [] {
      assert !Changed(ops, 0);
      forall k | 0 <= k < |ops[1..]| ensures !Changed(ops[1..], k) {
        assert !Changed(ops, k + 1);
      }
      EqualRun(ops[1..]);
    }
  }

  lemma Cut(ops: seq<Op>, i: nat)
    requires i <= |ops|
    ensures OldSide(ops) == OldSide(ops[..i]) + OldSide(ops[i..])
    ensures NewSide(ops) == NewSide(ops[..i]) + NewSide(ops[i..])
  {
    assert ops == ops[..i] + ops[i..];
    SidesAppend(ops[..i], ops[i..]);
  }

  /** The sides of a script read up to s, then up to e. */
  lemma CutBetween(ops: seq<Op>, s: nat, e: nat)
    requires s <= e <= |ops|
    ensures OldSide(ops[..e]) == OldSide(ops[..s]) + OldSide(ops[s..e])
    ensures NewSide(ops[..e]) == NewSide(ops[..s]) + NewSide(ops[s..e])
  {
    assert ops[..e][..s] == ops[..s] && ops[..e][s..] == ops[s..e];
    Cut(ops[..e], s);
  }

  lemma CutFrom(ops: seq<Op>, p: nat, s: nat)
    requires p <= s <= |ops|
    ensures NewSide(ops[p..]) == NewSide(ops[p..s]) + NewSide(ops[s..])
  {
    assert ops[p..][..s - p] == ops[p..s] && ops[p..][s - p..] == ops[s..];
    Cut(ops[p..], s - p);
  }

  /** Where the lines of ops[s..e] lie in the old file. */
  lemma OldSlice(ops: seq<Op>, s: nat, e: nat)
    requires s <= e <= |ops|
    ensures |OldSide(ops[..s])| <= |OldSide(ops[..e])| <= |OldSide(ops)|
    ensures OldSide(ops)[|OldSide(ops[..s])|..|OldSide(ops[..e])|] == OldSide(ops[s..e])
  {
    CutBetween(ops, s, e);
    Cut(ops, e);
  }

  /** Where the script has been read up to before range r. */
  ghost function Reached(ranges: seq<(nat, nat)>, r: nat): nat
    requires r <= |ranges|
  {
    if r == 0 then 0 else ranges[r - 1].1
  }

  /** Between ranges the two files agree. */
  ghost predicate GapsAgree(ops: seq<Op>, ranges: seq<(nat, nat)>) {
    && Spaced(ranges, |ops|)
    && (forall r | 0 <= r <= |ranges| :: GapAgrees(ops, ranges, r))
  }

  ghost predicate GapAgrees(ops: seq<Op>, ranges: seq<(nat, nat)>, r: nat)
    requires r <= |ranges|
  {
    var p, s := Reached(ranges, r), if r < |ranges| then ranges[r].0 else |ops|;
    p <= s <= |ops| && OldSide(ops[p..s]) == NewSide(ops[p..s])
  }

  lemma GroupingGapsAgree(ops: seq<Op>, ranges: seq<(nat, nat)>)
    requires Grouping(ops, ranges)
    ensures GapsAgree(ops, ranges)
  {
    forall r | 0 <= r <= |ranges| ensures GapAgrees(ops, ranges, r) {
      var p, s := Reached(ranges, r), if r < |ranges| then ranges[r].0 else |ops|;
      forall k | 0 <= k < |ops[p..s]| ensures !Changed(ops[p..s], k) {
        assert !InSome(ranges, p + k);
        assert !Changed(ops, p + k);
      }
      EqualRun(ops[p..s]);
    }
  }

  /** With the script read up to p, these hunks write the rest of the new file. */
  ghost predicate Completes(hunks: seq<Hunk>, ops: seq<Op>, p: nat)
    requires p <= |ops|
  {
    && |OldSide(ops[..p])| <= |OldSide(ops)|
    && ApplyFrom(OldSide(ops), hunks, |OldSide(ops[..p])|, |NewSide(ops[..p])|) == Some(NewSide(ops[p..]))
  }

  lemma {:induction false} ApplyRest(ops: seq<Op>, ranges: seq<(nat, nat)>, r: nat)
    requires GapsAgree(ops, ranges) && r <= |ranges|
    ensures Completes(HunksFrom(ops, ranges, r), ops, Reached(ranges, r))
    decreases |ranges| - r
  {
    var p := Reached(ranges, r);
    assert GapAgrees(ops, ranges, r);
    if r == |ranges| {
      ApplyNone(ops, p);
    } else {
      ApplyRest(ops, ranges, r + 1);
      ApplyOne(ops, p, ranges[r].0, ranges[r].1, HunksFrom(ops, ranges, r + 1));
    }
  }

  lemma ApplyNone(ops: seq<Op>, p: nat)
    requires p <= |ops| && OldSide(ops[p..|ops|]) == NewSide(ops[p..|ops|])
    ensures Completes([], ops, p)
  {
    assert ops[p..|ops|] == ops[p..];
    Cut(ops, p);
  }

  /** The hunk [s, e) applied after operation p, when only kept lines lie between. */
  lemma ApplyOne(ops: seq<Op>, p: nat, s: nat, e: nat, rest: seq<Hunk>)
    requires p <= s <= e <= |ops| && OldSide(ops[p..s]) == NewSide(ops[p..s])
    requires Completes(rest, ops, e)
    ensures Completes([HunkAt(ops, s, e)] + rest, ops, p)
  {
    hide OldSide, NewSide;
    OldSlice(ops, p, s);
    OldSlice(ops, s, e);
    CutBetween(ops, p, s);
    CutBetween(ops, s, e);
    var h, made, tail := HunkAt(ops, s, e), |NewSide(ops[..p])|, NewSide(ops[e..]);
    ApplyStep(OldSide(ops), h, rest, |OldSide(ops[..p])|, made, tail);
    assert NewSide(ops[p..]) == OldSide(ops[p..s]) + NewSide(ops[s..e]) + tail by {
      CutFrom(ops, p, s);
      CutFrom(ops, s, e);
    }
  }

  lemma ApplyStep(file: seq<string>, h: Hunk, rest: seq<Hunk>, cursor: nat, made: nat, tail: seq<string>)
    requires cursor <= h.oldRange.Before() && h.oldRange.Before() + h.oldRange.Count() <= |file|
    requires file[h.oldRange.Before()..h.oldRange.Before() + h.oldRange.Count()] == OldSide(h.body)
    requires h.newRange.Count() == |NewSide(h.body)| && h.newRange.Before() == made + h.oldRange.Before() - cursor
    requires ApplyFrom(file, rest, h.oldRange.Before() + h.oldRange.Count(), h.newRange.Before() + h.newRange.Count()) == Some(tail)
    ensures ApplyFrom(file, [h] + rest, cursor, made) == Some(file[cursor..h.oldRange.Before()] + NewSide(h.body) + tail)
  {
    assert ([h] + rest)[1..] == rest;
  }

  /** Reading the hunks of a grouping by their headers turns the old file into the new,
      and reading them backwards turns the new file into the old. */
  lemma HunksTransform(ops: seq<Op>, ranges: seq<(nat, nat)>)
    requires Grouping(ops, ranges)
    ensures Apply(OldSide(ops), HunksAt(ops, ranges)) == Some(NewSide(ops))
    ensures Apply(NewSide(ops), Reversed(HunksAt(ops, ranges))) == Some(OldSide(ops))
  {
    GroupingGapsAgree(ops, ranges);
    ApplyRest(ops, ranges, 0);
    assert ops[0..] == ops;
    var inv := Invert(ops);
    InvertGrouping(ops, ranges);
    GroupingGapsAgree(inv, ranges);
    InvertHunks(ops, ranges, 0);
    ApplyRest(inv, ranges, 0);
    assert inv[0..] == inv;
    InvertSwapsSides(ops);
  }

  lemma InvertGrouping(ops: seq<Op>, ranges: seq<(nat, nat)>)
    requires Grouping(ops, ranges)
    ensures Grouping(Invert(ops), ranges)
  {
    var inv := Invert(ops);
    assert forall c | 0 <= c < |ops| :: Changed(inv, c) <==> Changed(ops, c);
    assert forall k | 0 <= k < |ops| :: Near(inv, |ops|, k) <==> Near(ops, |ops|, k);
  }

  lemma InvertHunk(ops: seq<Op>, s: nat, e: nat)
    requires s <= e <= |ops|
    ensures HunkAt(Invert(ops), s, e) == Reverse(HunkAt(ops, s, e))
  {
    assert Invert(ops)[..s] == Invert(ops[..s]) && Invert(ops)[s..e] == Invert(ops[s..e]);
    InvertSwapsSides(ops[..s]);
    InvertSwapsSides(ops[s..e]);
  }

  lemma {:induction false} InvertHunks(ops: seq<Op>, ranges: seq<(nat, nat)>, r: nat)
    requires Spaced(ranges, |ops|) && r <= |ranges|
    ensures HunksFrom(Invert(ops), ranges, r) == Reversed(HunksFrom(ops, ranges, r))
    decreases |ranges| - r
  {
    if r < |ranges| {
      InvertHunk(ops, ranges[r].0, ranges[r].1);
      InvertHunks(ops, ranges, r + 1);
    }
  }

  lemma EqualIsOnBothSides(ops: seq<Op>, s: nat, k: nat, e: nat)
    requires s <= k < e <= |ops| && !Changed(ops, k)
    ensures |OldSide(ops[s..e])| > 0 && |NewSide(ops[s..e])| > 0
  {
    assert ops[s..e] == ops[s..k] + ([ops[k]] + ops[k + 1..e]);
    SidesAppend(ops[s..k], [ops[k]] + ops[k + 1..e]);
    SidesAppend([ops[k]], ops[k + 1..e]);
  }

  lemma {:induction false} NoCostMeansEqual(ops: seq<Op>)
    ensures Cost(ops) == 0 <==> forall k | 0 <= k < |ops| :: !Changed(ops, k)
    ensures Cost(ops) == 0 ==> OldSide(ops) == NewSide(ops)
  {
    if ops != [] {
      NoCostMeansEqual(ops[1..]);
      if Cost(ops) == 0 {
        forall k | 0 <= k < |ops| ensures !Changed(ops, k) {
          assert k > 0 ==> !Changed(ops[1..], k - 1);
        }
      } else if ops[0].kind == Equal {
        var k :| 0 <= k < |ops[1..]| && Changed(ops[1..], k);
        assert Changed(ops, k + 1);
      } else {
        assert Changed(ops, 0);
      }
    }
  }

  lemma NoHunksMeansNoCost(ops: seq<Op>, ranges: seq<(nat, nat)>)
    requires Grouping(ops, ranges)
    ensures ranges == [] <==> Cost(ops) == 0
  {
    NoCostMeansEqual(ops);
    if ranges == [] {
      forall k | 0 <= k < |ops| ensures !Changed(ops, k) {
        assert !InSome(ranges, k) && !Near(ops, |ops|, k);
      }
    } else {
      assert InSome(ranges, ranges[0].0);
    }
  }

  /** A file against itself has a script that changes nothing. */
  lemma {:induction false} EqualScript(a: seq<string>)
    ensures exists ops :: IsScript(ops, a, a) && Cost(ops) == 0
  {
    if a == [] {
      assert IsScript([], a, a) && Cost([]) == 0;
    } else {
      EqualScript(a[1..]);
      var rest :| IsScript(rest, a[1..], a[1..]) && Cost(rest) == 0;
      var ops := [Op(Equal, a[0])] + rest;
      assert IsScript(ops, a, a) && Cost(ops) == 0;
    }
  }

  /** A header counts no lines on a side only when that whole file is empty. */
  lemma ZeroCountMeansEmptyFile(ops: seq<Op>, ranges: seq<(nat, nat)>, r: nat)
    requires Grouping(ops, ranges) && r < |ranges|
    ensures var h := HunkAt(ops, ranges[r].0, ranges[r].1);
            && (h.oldRange.Count() == 0 ==> OldSide(ops) == [])
            && (h.newRange.Count() == 0 ==> NewSide(ops) == [])
  {
    var (s, e) := ranges[r];
    if s > 0 {
      assert !InSome(ranges, s - 1) && !Near(ops, |ops|, s - 1);
      assert !Changed(ops, s);
      EqualIsOnBothSides(ops, s, s, e);
    } else if e < |ops| {
      assert !InSome(ranges, e) && !Near(ops, |ops|, e);
      assert !Changed(ops, e - 1);
      EqualIsOnBothSides(ops, s, e - 1, e);
    } else {
      assert ops[s..e] == ops;
    }
  }

  /** A range as POSIX diff -u prints it: the line alone for one line, the line before for none. */
  lemma RangeSpecIs(start: int, count: nat)
    ensures count == 0 ==> RangeSpec(start, count) == Pair(start - 1, 0)
    ensures count == 1 ==> RangeSpec(start, count) == Bare(start)
    ensures count > 1 ==> RangeSpec(start, count) == Pair(start, count)
  {
  }

  /** Shown are the changes and the three lines before and after each, in stretches that do not
      touch. */
  lemma GroupingShows(ops: seq<Op>, ranges: seq<(nat, nat)>, k: nat)
    requires Grouping(ops, ranges) && k < |ops|
    ensures (exists r | 0 <= r < |ranges| :: ranges[r].0 <= k < ranges[r].1) <==>
            exists c: nat | c < |ops| :: ops[c].kind != Equal && k <= c + 3 && c <= k + 3
    ensures forall r | 0 < r < |ranges| :: ranges[r - 1].1 < ranges[r].0
  {
    assert InSome(ranges, k) <==> Near(ops, |ops|, k);
    if c: nat :| c < |ops| && ops[c].kind != Equal && k <= c + 3 && c <= k + 3 {
      assert Changed(ops, c);
    }
    if Near(ops, |ops|, k) {
      var c :| 0 <= c < |ops| && Changed(ops, c) && c - CONTEXT <= k <= c + CONTEXT;
      assert ops[c].kind != Equal;
    }
  }

  /** A hunk holds its stretch of the script, and counts the lines of either file before it and in
      it. */
  lemma HunkReads(ops: seq<Op>, s: nat, e: nat)
    requires s <= e <= |ops|
    ensures var h := HunkAt(ops, s, e);
            && h.body == ops[s..e]
            && h.oldRange == RangeSpec(1 + |OldSide(ops[..s])|, |OldSide(ops[s..e])|)
            && h.newRange == RangeSpec(1 + |NewSide(ops[..s])|, |NewSide(ops[s..e])|)
            && h.oldRange.Count() + |OldSide(ops[..s])| == |OldSide(ops[..e])|
            && h.newRange.Count() + |NewSide(ops[..s])| == |NewSide(ops[..e])|
  {
    CutBetween(ops, s, e);
  }

  // ---------------------------------------------------------------------------
  // The grouping algorithm
  // ---------------------------------------------------------------------------

  /** Per operation, the 1-based old and new line it stands at. */
  method LineNumbers(ops: seq<Op>) returns (oldLine: seq<nat>, newLine: seq<nat>)
    ensures |oldLine| == |newLine| == |ops|
    ensures forall k | 0 <= k < |ops| :: oldLine[k] == 1 + |OldSide(ops[..k])| && newLine[k] == 1 + |NewSide(ops[..k])|
  {
    oldLine, newLine := [], [];
    var ol, nl := 1, 1;
    for k := 0 to |ops|
      invariant |oldLine| == |newLine| == k
      invariant ol == 1 + |OldSide(ops[..k])| && nl == 1 + |NewSide(ops[..k])|
      invariant forall x | 0 <= x < k :: oldLine[x] == 1 + |OldSide(ops[..x])| && newLine[x] == 1 + |NewSide(ops[..x])|
    {
      oldLine, newLine := oldLine + [ol], newLine + [nl];
      CutBetween(ops, k, k + 1);
      match ops[k].kind {
        case Equal => ol, nl := ol + 1, nl + 1;
        case Delete => ol := ol + 1;
        case Insert => nl := nl + 1;
      }
    }
  }

  /** The loop state after k operations: everything near an earlier change is in a range,
      and the last range ends within CONTEXT of k. */
  ghost predicate Grouped(ops: seq<Op>, ranges: seq<(nat, nat)>, k: nat)
    requires k <= |ops|
  {
    && Spaced(ranges, |ops|)
    && (forall x | 0 <= x < |ops| :: InSome(ranges, x) <==> Near(ops, k, x))
    && LastBehind(ranges, k)
  }

  ghost predicate LastBehind(ranges: seq<(nat, nat)>, k: nat) {
    ranges != [] ==>
      && ranges[|ranges| - 1].1 <= k + CONTEXT
      && (ranges[|ranges| - 1].0 == 0 || ranges[|ranges| - 1].0 + CONTEXT < k)
  }

  /** The ranges after a run of changes [start, end), padded and then merged or appended. */
  ghost function Widened(ranges: seq<(nat, nat)>, start: nat, end: nat, n: nat): seq<(nat, nat)> {
    var s, e := if start < CONTEXT then 0 else start - CONTEXT, if end + CONTEXT > n then n else end + CONTEXT;
    if ranges != [] && s <= ranges[|ranges| - 1].1
    then ranges[|ranges| - 1 := (ranges[|ranges| - 1].0, e)]
    else ranges + [(s, e)]
  }

  lemma RunIsGrouped(ops: seq<Op>, ranges: seq<(nat, nat)>, start: nat, end: nat)
    requires start < end <= |ops| && Grouped(ops, ranges, start)
    requires forall c | start <= c < end :: Changed(ops, c)
    ensures Grouped(ops, Widened(ranges, start, end, |ops|), end)
  {
    var grown := Widened(ranges, start, end, |ops|);
    forall x | 0 <= x < |ops| ensures InSome(grown, x) <==> Near(ops, end, x) {
      RunCovers(ops, ranges, start, end, x);
      RunInside(ranges, start, end, |ops|, x);
    }
  }

  /** What a run of changes adds to the operations near a change. */
  lemma RunCovers(ops: seq<Op>, ranges: seq<(nat, nat)>, start: nat, end: nat, x: int)
    requires start < end <= |ops|
    requires forall c | start <= c < end :: Changed(ops, c)
    ensures Near(ops, end, x) <==> Near(ops, start, x) || start - CONTEXT <= x < end + CONTEXT
  {
    if start - CONTEXT <= x < end + CONTEXT {
      var c := if x < start then start else if x < end then x else end - 1;
      assert Changed(ops, c) && c - CONTEXT <= x <= c + CONTEXT;
    }
    if Near(ops, start, x) {
      var c :| 0 <= c < start && Changed(ops, c) && c - CONTEXT <= x <= c + CONTEXT;
      assert c < end;
    }
  }

  /** What padding and merging that run adds to the ranges. */
  lemma RunInside(ranges: seq<(nat, nat)>, start: nat, end: nat, n: nat, x: nat)
    requires start < end <= n && x < n && Spaced(ranges, n)
    requires LastBehind(ranges, start)
    ensures InSome(Widened(ranges, start, end, n), x) <==>
            InSome(ranges, x) || start - CONTEXT <= x < end + CONTEXT
  {
    var grown, last := Widened(ranges, start, end, n), |ranges| - 1;
    if InSome(grown, x) {
      var r :| 0 <= r < |grown| && grown[r].0 <= x < grown[r].1;
      if r < last || (r == last && x < ranges[last].1) {
        assert ranges[r].0 <= x < ranges[r].1;
      }
    }
    if InSome(ranges, x) {
      var r :| 0 <= r < |ranges| && ranges[r].0 <= x < ranges[r].1;
      assert grown[r].0 <= x < grown[r].1;
    }
    if start - CONTEXT <= x < end + CONTEXT {
      assert grown[|grown| - 1].0 <= x < grown[|grown| - 1].1;
    }
  }

  lemma SkipKept(ops: seq<Op>, ranges: seq<(nat, nat)>, k: nat)
    requires k < |ops| && Grouped(ops, ranges, k) && !Changed(ops, k)
    ensures Grouped(ops, ranges, k + 1)
  {
    assert forall x :: Near(ops, k + 1, x) <==> Near(ops, k, x);
  }

  method ChangeRanges(ops: seq<Op>) returns (ranges: seq<(nat, nat)>)
    ensures Grouping(ops, ranges)
  {
    var n := |ops|;
    ranges := [];
    var k := 0;
    while k < n
      invariant k <= n && Grouped(ops, ranges, k)
    {
      if !Changed(ops, k) {
        SkipKept(ops, ranges, k);
        k := k + 1;
      } else {
        var start := k;
        while k < n && Changed(ops, k)
          invariant start <= k <= n
          invariant forall c | start <= c < k :: Changed(ops, c)
        {
          k := k + 1;
        }
        RunIsGrouped(ops, ranges, start, k);
        ranges := AddRun(ranges, start, k, n);
      }
    }
  }

  method AddRun(ranges: seq<(nat, nat)>, start: nat, end: nat, n: nat) returns (grown: seq<(nat, nat)>)
    ensures grown == Widened(ranges, start, end, n)
  {
    var s, e := start - CONTEXT, end + CONTEXT;
    if s < 0 {
      s := 0;
    }
    if e > n {
      e := n;
    }
    if |ranges| > 0 && s <= ranges[|ranges| - 1].1 {
      grown := ranges[|ranges| - 1 := (ranges[|ranges| - 1].0, e)];
    } else {
      grown := ranges + [(s, e)];
    }
  }

  method HunksFromOps(ops: seq<Op>) returns (hunks: seq<Hunk>)
    ensures exists ranges :: Grouping(ops, ranges) && hunks == HunksAt(ops, ranges)
  {
    var oldLine, newLine := LineNumbers(ops);
    var ranges := ChangeRanges(ops);
    hunks := [];
    for r := 0 to |ranges|
      invariant hunks + HunksFrom(ops, ranges, r) == HunksAt(ops, ranges)
    {
      var (s, e) := ranges[r];
      var body, oldCount, newCount := HunkBody(ops, s, e);
      var h := Hunk(RangeSpec(oldLine[s], oldCount), RangeSpec(newLine[s], newCount), body);
      assert hunks + ([h] + HunksFrom(ops, ranges, r + 1)) == hunks + [h] + HunksFrom(ops, ranges, r + 1);
      hunks := hunks + [h];
    }
  }

  method HunkBody(ops: seq<Op>, s: nat, e: nat) returns (body: seq<Op>, oldCount: nat, newCount: nat)
    requires s <= e <= |ops|
    ensures body == ops[s..e] && oldCount == |OldSide(body)| && newCount == |NewSide(body)|
  {
    body, oldCount, newCount := [], 0, 0;
    for k := s to e
      invariant body == ops[s..k] && oldCount == |OldSide(body)| && newCount == |NewSide(body)|
    {
      SidesAppend(body, [ops[k]]);
      body := body + [ops[k]];
      match ops[k].kind {
        case Equal => oldCount, newCount := oldCount + 1, newCount + 1;
        case Delete => oldCount := oldCount + 1;
        case Insert => newCount := newCount + 1;
      }
    }
  }

  // ---------------------------------------------------------------------------
  // Whole texts
  // ---------------------------------------------------------------------------

  /** The text with its last line terminated: what the differ can tell apart. */
  function Terminated(s: string): string {
    if s == "" || s[|s| - 1] == '\n' then s else s + "\n"
  }

  /** The lines of a text; a trailing newline does not open another, empty, line. */
  function SplitLines(s: string): seq<string> {
    if s == "" then []
    else
      var ls := Lines.Split(s);
      if ls[|ls| - 1] == "" then ls[..|ls| - 1] else ls
  }

  ghost function Unlines(ls: seq<string>): string {
    if ls == [] then "" else ls[0] + "\n" + Unlines(ls[1..])
  }

  lemma {:induction false} UnlinesJoin(ls: seq<string>)
    ensures Unlines(ls) == Lines.Join(ls + [""])
  {
    if ls != [] {
      UnlinesJoin(ls[1..]);
      assert (ls + [""])[1..] == ls[1..] + [""];
    }
  }

  lemma UnlinesOfSplit(s: string)
    ensures Unlines(SplitLines(s)) == Terminated(s)
  {
    if s != "" {
      var ls := Lines.Split(s);
      Lines.JoinSplit(s);
      if s[|s| - 1] == '\n' {
        var body := s[..|s| - 1];
        assert s == body + "\n";
        AppendNewline(body);
        UnlinesJoin(Lines.Split(body));
      } else {
        AppendNewline(s);
        UnlinesJoin(ls);
        Lines.JoinTerminated(ls);
      }
    }
  }

  /** Two texts have the same lines exactly when they differ at most in a final newline. */
  lemma SameLines(s: string, t: string)
    ensures SplitLines(s) == SplitLines(t) <==> Terminated(s) == Terminated(t)
  {
    UnlinesOfSplit(s);
    UnlinesOfSplit(t);
    SplitTerminated(s);
    SplitTerminated(t);
  }

  lemma {:induction false} SplitTerminated(s: string)
    ensures SplitLines(Terminated(s)) == SplitLines(s)
  {
    var t := Terminated(s);
    if s != "" && t != s {
      AppendNewline(s);
    }
  }

  lemma {:induction false} AppendNewline(s: string)
    ensures Lines.Split(s + "\n") == Lines.Split(s) + [""]
    ensures s != "" && s[|s| - 1] != '\n' ==> Lines.Split(s)[|Lines.Split(s)| - 1] != ""
  {
    if s == "" {
      assert Lines.Split("\n") == [""] + Lines.Split("");
    } else {
      AppendNewline(s[1..]);
      assert (s + "\n")[1..] == s[1..] + "\n";
    }
  }

  /** The hunks are those of a script between the files, and below the differ's cutoff no script
      changes fewer lines. */
  ghost predicate ShowsScript(hunks: seq<Hunk>, a: seq<string>, b: seq<string>) {
    exists ops, ranges | Grouping(ops, ranges) && IsScript(ops, a, b) ::
      && hunks == HunksAt(ops, ranges)
      && (|a| * |b| <= 4_000_000 ==> forall other | IsScript(other, a, b) :: Cost(ops) <= Cost(other))
  }

  /** The diff of two texts. Its hunks rebuild either text's lines from the other's. There
      are none exactly when the texts are equal, or differ in a final newline only and are
      below the differ's cutoff: above it the whole block is replaced even so. */
  method Unified(before: string, after: string) returns (hunks: seq<Hunk>)
    ensures Apply(SplitLines(before), hunks) == Some(SplitLines(after))
    ensures Apply(SplitLines(after), Reversed(hunks)) == Some(SplitLines(before))
    ensures hunks == [] <==>
            before == after || (Terminated(before) == Terminated(after) && |SplitLines(before)| * |SplitLines(after)| <= 4_000_000)
    ensures before != after ==> ShowsScript(hunks, SplitLines(before), SplitLines(after))
  {
    var a, b := SplitLines(before), SplitLines(after);
    if before == after {
      hunks := [];
      assert Reversed(hunks) == [];
      return;
    }
    var ops := DiffLines(a, b);
    hunks := HunksFromOps(ops);
    assert ShowsScript(hunks, a, b);
    ghost var ranges :| Grouping(ops, ranges) && hunks == HunksAt(ops, ranges);
    HunksTransform(ops, ranges);
    SameLines(before, after);
    CostByKept(ops);
    NoHunksMeansNoCost(ops, ranges);
    if a == b {
      EqualScript(a);
    } else if Cost(ops) == 0 {
      NoCostMeansEqual(ops);
    }
  }

  /** Lines closed by newlines are read back as they are. */
  lemma SplitUnlines(ls: seq<string>)
    requires Lines.AllOneLine(ls)
    ensures SplitLines(Unlines(ls)) == ls
  {
    UnlinesJoin(ls);
    if ls != [] {
      Lines.SplitJoin(ls + [""]);
      assert Unlines(ls) != "";
    }
  }

  lemma NewlineLeavesEmptyPiece(s: string)
    requires s != "" && s[|s| - 1] == '\n'
    ensures Lines.Split(s)[|Lines.Split(s)| - 1] == ""
  {
    assert s == s[..|s| - 1] + "\n";
    AppendNewline(s[..|s| - 1]);
  }

  /** Text of n lines, all alike, without a final newline. */
  function Alike(n: nat): string {
    Lines.Join(seq(n, _ => "x"))
  }

  lemma AlikeLines(n: nat)
    requires n > 0
    ensures SplitLines(Alike(n)) == SplitLines(Alike(n) + "\n") == seq(n, _ => "x")
    ensures Terminated(Alike(n)) == Alike(n) + "\n"
  {
    var ls := seq(n, _ => "x");
    Lines.SplitJoin(ls);
    if Alike(n) != "" && Alike(n)[|Alike(n)| - 1] == '\n' {
      NewlineLeavesEmptyPiece(Alike(n));
    }
    SplitTerminated(Alike(n));
  }

  /** Two thousand and one lines, with and without a final newline: the same lines, and yet
      above the cutoff, so that their diff is not empty. */
  lemma FinalNewlineAboveCutoff()
    ensures var before, after := Alike(2001), Alike(2001) + "\n";
            && before != after && Terminated(before) == Terminated(after)
            && |SplitLines(before)| * |SplitLines(after)| > 4_000_000
  {
    AlikeLines(2001);
    SameLines(Alike(2001), Alike(2001) + "\n");
  }
}
