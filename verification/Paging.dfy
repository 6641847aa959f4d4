/** Bounded reads: a page of whole lines under a character cap, and where to resume. */
module Paging {
  import opened Utf8

  const DEFAULT_MAX_LINES := 2000
  const DEFAULT_MAX_CHARS := 100 * 1024

  // ---------------------------------------------------------------------------
  // Lines of a file, by position
  // ---------------------------------------------------------------------------

  /** Just past the newline that ends the line at p, or the end of the file. */
  function NextLine(s: Bytes, p: nat): (q: nat)
    requires p <= |s|
    ensures p <= q <= |s|
    ensures p < |s| ==> p < q && (q == |s| || s[q - 1] == NEWLINE)
    decreases |s| - p
  {
    if p == |s| then p else if s[p] == NEWLINE then p + 1 else NextLine(s, p + 1)
  }

  function Skip(s: Bytes, p: nat, n: nat): (q: nat)
    requires p <= |s|
    ensures p <= q <= |s|
    decreases n
  {
    if n == 0 then p else Skip(s, NextLine(s, p), n - 1)
  }

  function LinesFrom(s: Bytes, p: nat): nat
    requires p <= |s|
    decreases |s| - p
  {
    if p == |s| then 0 else 1 + LinesFrom(s, NextLine(s, p))
  }

  function Newlines(s: Bytes, p: nat, e: nat): nat
    requires p <= e <= |s|
    decreases e - p
  {
    if p == e then 0 else (if s[p] == NEWLINE then 1 else 0) + Newlines(s, p + 1, e)
  }

  lemma {:induction false} SkipSum(s: Bytes, p: nat, m: nat, n: nat)
    requires p <= |s|
    ensures Skip(s, p, m + n) == Skip(s, Skip(s, p, m), n)
    decreases m
  {
    if m > 0 {
      SkipSum(s, NextLine(s, p), m - 1, n);
    }
  }

  lemma SkipNext(s: Bytes, p: nat, n: nat)
    requires p <= |s|
    ensures Skip(s, p, n + 1) == NextLine(s, Skip(s, p, n))
  {
    SkipSum(s, p, n, 1);
    assert Skip(s, Skip(s, p, n), 1) == Skip(s, NextLine(s, Skip(s, p, n)), 0);
  }

  /** Skipping n lines reaches the end exactly when there are no more than n. */
  lemma {:induction false} SkipReachesEnd(s: Bytes, p: nat, n: nat)
    requires p <= |s|
    ensures Skip(s, p, n) == |s| <==> LinesFrom(s, p) <= n
    ensures n <= LinesFrom(s, p) ==> LinesFrom(s, Skip(s, p, n)) == LinesFrom(s, p) - n
    decreases n
  {
    if n > 0 {
      SkipReachesEnd(s, NextLine(s, p), n - 1);
    }
  }

  lemma SkipStrict(s: Bytes, p: nat, m: nat, n: nat)
    requires p <= |s| && Skip(s, p, m) < Skip(s, p, n)
    ensures m < n
  {
    if n <= m {
      SkipSum(s, p, n, m - n);
    }
  }

  /** As many whole lines lie before a position as there are newlines. */
  lemma {:induction false} NewlinesSkip(s: Bytes, p: nat, e: nat)
    requires p <= e <= |s|
    ensures Skip(s, p, Newlines(s, p, e)) <= e
    ensures e < |s| ==> e < NextLine(s, Skip(s, p, Newlines(s, p, e)))
    decreases e - p
  {
    if p < e {
      NewlinesSkip(s, p + 1, e);
    }
  }

  lemma {:induction false} NewlinesOfSlice(s: Bytes, b: nat, e: nat, p: nat)
    requires b <= p <= e <= |s|
    ensures Newlines(s[b..e], p - b, e - b) == Newlines(s, p, e)
    decreases e - p
  {
    if p < e {
      NewlinesOfSlice(s, b, e, p + 1);
    }
  }

  // ---------------------------------------------------------------------------
  // Rune prefixes
  // ---------------------------------------------------------------------------

  /** The position after n runes from i on, or the end. */
  function RunesOn(s: Bytes, i: nat, n: nat): (q: nat)
    requires i <= |s|
    ensures i <= q <= |s|
    decreases n
  {
    if n == 0 || i == |s| then i else RunesOn(s, i + RuneSize(s, i), n - 1)
  }

  method RunePrefixBytes(s: Bytes, n: nat) returns (len: nat)
    ensures len == RunesOn(s, 0, n)
  {
    hide RuneSize;
    var count, i := 0, 0;
    while i < |s|
      invariant 0 <= i <= |s| && count <= n
      invariant RunesOn(s, 0, n) == RunesOn(s, i, n - count)
      decreases |s| - i
    {
      if count == n {
        return i;
      }
      count, i := count + 1, i + RuneSize(s, i);
    }
    len := |s|;
  }

  lemma RuneSizeOfPrefix(s: Bytes, i: nat, e: nat)
    requires i < |s| && i + RuneSize(s, i) <= e <= |s|
    ensures RuneSize(s[..e], i) == RuneSize(s, i)
  {
  }

  lemma {:induction false} RunePrefixCounts(s: Bytes, i: nat, n: nat)
    requires i <= |s| && n <= RunesFrom(s, i)
    ensures RunesFrom(s[..RunesOn(s, i, n)], i) == n
    ensures n < RunesFrom(s, i) ==> RunesOn(s, i, n) < |s|
    decreases n
  {
    hide RuneSize;
    if n > 0 {
      RunePrefixCounts(s, i + RuneSize(s, i), n - 1);
      RuneSizeOfPrefix(s, i, RunesOn(s, i, n));
    }
  }

  /** The runes before a line end are those of the line alone: the first n of a text cover it
      just when it has at most n. */
  lemma {:induction false} RunesCoverLine(s: Bytes, i: nat, e: nat, n: nat)
    requires i <= e <= |s| && (e == |s| || (e > 0 && s[e - 1] == NEWLINE))
    ensures e <= RunesOn(s, i, n) <==> RunesFrom(s[..e], i) <= n
    ensures RunesFrom(s, i) == RunesFrom(s[..e], i) + RunesFrom(s, e)
    decreases e - i
  {
    hide RuneSize;
    if i < e {
      var size := RuneSize(s, i);
      assert i + size <= e;
      RuneSizeOfPrefix(s, i, e);
      if n > 0 {
        RunesCoverLine(s, i + size, e, n - 1);
      } else {
        RunesCoverLine(s, i + size, e, 0);
      }
    }
  }

  // ---------------------------------------------------------------------------
  // One page
  // ---------------------------------------------------------------------------

  datatype Page = Page(
    content: Bytes, offset: nat, limit: nat, linesShown: nat,
    totalLines: nat, totalBytes: nat, truncated: bool, nextOffset: nat)

  /** Where a page starts and where it stops in the file. */
  function Start(s: Bytes, r: Page): nat
    requires r.offset > 0
  {
    Skip(s, 0, r.offset - 1)
  }

  function Stop(s: Bytes, r: Page): nat
    requires r.offset > 0
  {
    Start(s, r) + |r.content|
  }

  /** The lines asked for. */
  function Asked(s: Bytes, r: Page): Bytes
    requires r.offset > 0
  {
    s[Start(s, r)..Skip(s, Start(s, r), r.limit)]
  }

  function RunePrefix(s: Bytes, n: nat): Bytes {
    s[..RunesOn(s, 0, n)]
  }

  /** A page holds the lines asked for, as far as the character cap goes: a stretch of the file
      from the start of its first line, with as many whole lines as it says and no more, that
      ends where the file does, after the asked number of lines, or when the cap is used up. */
  ghost predicate Shows(s: Bytes, r: Page, maxChars: nat) {
    && 0 < r.offset <= r.totalLines
    && Stop(s, r) <= |s| && r.content == s[Start(s, r)..Stop(s, r)] == RunePrefix(Asked(s, r), maxChars)
    && r.linesShown <= r.limit && RunesFrom(r.content, 0) <= maxChars
    && Skip(s, Start(s, r), r.linesShown) <= Stop(s, r)
    && (if Stop(s, r) < |s| then Stop(s, r) < Skip(s, Start(s, r), r.linesShown + 1) else r.offset - 1 + r.linesShown == r.totalLines)
    && (Stop(s, r) < |s| ==> RunesFrom(r.content, 0) == maxChars
                              || (r.linesShown == r.limit && Stop(s, r) == Skip(s, Start(s, r), r.limit)))
  }

  /** The first line of a page, newline included, is within the character cap. */
  ghost predicate FirstLineFits(s: Bytes, r: Page, maxChars: nat)
    requires r.offset > 0
  {
    RunesFrom(s[Start(s, r)..NextLine(s, Start(s, r))], 0) <= maxChars
  }

  /** The start of every line, in order. */
  ghost predicate LineStarts(s: Bytes, starts: seq<nat>) {
    |starts| == LinesFrom(s, 0) && forall k | 0 <= k < |starts| :: starts[k] == Skip(s, 0, k)
  }

  method FindLineStarts(s: Bytes) returns (starts: seq<nat>)
    ensures LineStarts(s, starts)
  {
    starts := [];
    if |s| == 0 {
      return;
    }
    starts := [0];
    for i := 0 to |s|
      invariant |starts| > 0 && starts[|starts| - 1] < |s|
      invariant NextLine(s, starts[|starts| - 1]) == NextLine(s, i)
      invariant LinesFrom(s, 0) == |starts| - 1 + LinesFrom(s, starts[|starts| - 1])
      invariant forall k | 0 <= k < |starts| :: starts[k] == Skip(s, 0, k)
    {
      if s[i] == NEWLINE && i + 1 < |s| {
        SkipNext(s, 0, |starts| - 1);
        starts := starts + [i + 1];
      }
    }
  }

  /** The character cap on a stretch of lines: a prefix that ends within a line, and the whole
      lines left in it. */
  method CapSlice(ghost s: Bytes, ghost b: nat, ghost lines: nat, slice: Bytes, maxChars: nat)
    returns (cut: Bytes, shown: nat)
    requires b <= |s| && Skip(s, b, lines) - b == |slice| && slice == s[b..b + |slice|]
    requires RunesFrom(slice, 0) > maxChars
    ensures |cut| < |slice| && cut == s[b..b + |cut|] == RunePrefix(slice, maxChars)
    ensures RunesFrom(cut, 0) == maxChars
    ensures shown < lines
    ensures Skip(s, b, shown) <= b + |cut| < Skip(s, b, shown + 1)
    ensures shown == 0 <==> RunesFrom(s[b..NextLine(s, b)], 0) > maxChars
  {
    hide Skip, NextLine, RunesFrom, RunesOn, Newlines;
    var len := RunePrefixBytes(slice, maxChars);
    RunePrefixCounts(slice, 0, maxChars);
    cut := slice[..len];
    shown := Newlines(cut, 0, |cut|);
    assert cut == s[b..b + len];
    NewlinesOfSlice(s, b, b + len, b);
    NewlinesSkip(s, b, b + len);
    SkipNext(s, b, shown);
    SkipStrict(s, b, shown, lines);
    FirstLineCovered(s, b, lines, slice, maxChars);
    NoneShown(s, b, shown, b + len);
  }

  lemma NoneShown(s: Bytes, b: nat, shown: nat, e: nat)
    requires b <= e <= |s| && Skip(s, b, shown) <= e < NextLine(s, Skip(s, b, shown))
    ensures shown == 0 <==> e < NextLine(s, b)
  {
    if shown > 0 {
      SkipSum(s, b, 1, shown - 1);
      assert Skip(s, NextLine(s, b), 0) == Skip(s, b, 1);
    }
  }

  /** A rune prefix of some lines holds the first of them just when that line has few enough runes. */
  lemma FirstLineCovered(s: Bytes, b: nat, lines: nat, slice: Bytes, n: nat)
    requires b <= |s| && lines > 0 && Skip(s, b, lines) - b == |slice| && slice == s[b..b + |slice|]
    ensures NextLine(s, b) - b <= RunesOn(slice, 0, n) <==> RunesFrom(s[b..NextLine(s, b)], 0) <= n
  {
    var e := NextLine(s, b) - b;
    SkipSum(s, b, 1, lines - 1);
    assert Skip(s, b, 1) == Skip(s, NextLine(s, b), 0);
    assert slice[..e] == s[b..NextLine(s, b)];
    RunesCoverLine(slice, 0, e, n);
  }

  /** A page of a file that is not empty, and what it reports about itself. */
  ghost predicate GoodPage(s: Bytes, r: Page, maxChars: nat) {
    && Shows(s, r, maxChars)
    && (r.truncated <==> r.content != s)
    && (r.nextOffset == 0 <==> Stop(s, r) == |s|)
    && (r.nextOffset != 0 ==> r.nextOffset == r.offset + r.linesShown)
    && (r.linesShown == 0 <==> !FirstLineFits(s, r, maxChars))
  }

  method BoundContent(s: Bytes, offset: int, limit: int, maxLength: int) returns (r: Page)
    ensures r.limit == (if limit <= 0 then 2000 else limit) && r.totalLines == LinesFrom(s, 0) && r.totalBytes == |s|
    ensures r.linesShown <= r.limit
    ensures s == [] ==> r.content == [] && r.linesShown == 0 && r.nextOffset == 0 && !r.truncated
    ensures s != [] ==> r.offset == (if offset < 1 then 1 else if offset > LinesFrom(s, 0) then LinesFrom(s, 0) else offset)
    ensures s != [] ==> GoodPage(s, r, if maxLength <= 0 then 102400 else maxLength)
  {
    hide GoodPage, LinesFrom, Skip;
    EmptyHasNoLine(s);
    var lines := if limit <= 0 then DEFAULT_MAX_LINES else limit;
    var maxChars := if maxLength <= 0 then DEFAULT_MAX_CHARS else maxLength;
    var starts := FindLineStarts(s);
    var from := if offset < 1 then 1 else offset;
    if |starts| == 0 {
      return Page([], from, lines, 0, 0, |s|, false, 0);
    }
    if from > |starts| {
      from := |starts|;
    }
    r := PageFrom(s, starts, from, lines, maxChars);
  }

  /** The page of a file that is not empty, from a line of it on. */
  method PageFrom(s: Bytes, starts: seq<nat>, from: nat, limit: nat, maxChars: nat) returns (r: Page)
    requires LineStarts(s, starts) && 0 < from <= |starts| && limit > 0
    ensures r.offset == from && r.limit == limit && r.totalLines == |starts| && r.totalBytes == |s|
    ensures r.linesShown <= limit
    ensures GoodPage(s, r, maxChars)
  {
    hide Skip, NextLine, RunesFrom, LinesFrom, GoodPage, Start, Stop, RuneSize, RunePrefix;
    var total := |starts|;
    var startLine := from - 1;
    var endLine := if startLine + limit > total then total else startLine + limit;
    var byteStart := starts[startLine];
    var byteEnd := if endLine < total then starts[endLine] else |s|;
    SliceIsLines(s, starts, startLine, endLine);
    var slice := s[byteStart..byteEnd];
    var linesShown := endLine - startLine;
    var maxTruncated := RunesFrom(slice, 0) > maxChars;
    if maxTruncated {
      slice, linesShown := CapSlice(s, byteStart, endLine - startLine, slice, maxChars);
    }
    var shownEnd := startLine + linesShown;
    var truncated := from > 1 || shownEnd < total || maxTruncated;
    var next := if shownEnd < total || (maxTruncated && linesShown == 0) then from + linesShown else 0;
    r := Page(slice, from, limit, linesShown, total, |s|, truncated, next);
    StartIs(s, r, byteStart);
    AskedIs(s, r, starts, endLine);
    if maxTruncated {
      CappedPage(s, r, endLine - startLine, maxChars);
    } else {
      WholePage(s, r, maxChars);
    }
  }

  /** The lines asked for are those up to the last one, or all there are. */
  lemma AskedIs(s: Bytes, r: Page, starts: seq<nat>, to: nat)
    requires LineStarts(s, starts) && 0 < r.offset <= to <= |starts|
    requires (to == |starts| && to <= r.offset - 1 + r.limit) || to == r.offset - 1 + r.limit
    ensures starts[r.offset - 1] <= (if to < |starts| then starts[to] else |s|) <= |s|
    ensures Asked(s, r) == s[starts[r.offset - 1]..if to < |starts| then starts[to] else |s|]
  {
    hide NextLine, LinesFrom;
    var from := r.offset - 1;
    SliceIsLines(s, starts, from, to);
    SkipSum(s, 0, from, r.limit);
    SkipReachesEnd(s, 0, from + r.limit);
    SkipReachesEnd(s, 0, to);
  }

  lemma StartIs(s: Bytes, r: Page, b: nat)
    requires r.offset > 0 && b == Skip(s, 0, r.offset - 1)
    ensures Start(s, r) == b && Stop(s, r) == b + |r.content|
  {
  }

  lemma GoodPageIs(s: Bytes, r: Page, maxChars: nat)
    requires Shows(s, r, maxChars)
    requires r.truncated <==> r.content != s
    requires r.nextOffset == 0 <==> Stop(s, r) == |s|
    requires r.nextOffset != 0 ==> r.nextOffset == r.offset + r.linesShown
    requires r.linesShown == 0 <==> !FirstLineFits(s, r, maxChars)
    ensures GoodPage(s, r, maxChars)
  {
  }

  lemma CappedPage(s: Bytes, r: Page, lines: nat, maxChars: nat)
    requires 0 < r.offset <= r.totalLines == LinesFrom(s, 0)
    requires r.linesShown < lines <= r.limit && r.offset - 1 + lines <= r.totalLines
    requires Stop(s, r) < |s| && r.content == s[Start(s, r)..Stop(s, r)]
    requires RunesFrom(r.content, 0) == maxChars && r.content == RunePrefix(Asked(s, r), maxChars)
    requires Skip(s, Start(s, r), r.linesShown) <= Stop(s, r) < Skip(s, Start(s, r), r.linesShown + 1)
    requires r.linesShown == 0 <==> RunesFrom(s[Start(s, r)..NextLine(s, Start(s, r))], 0) > maxChars
    requires r.truncated && r.nextOffset == r.offset + r.linesShown
    ensures GoodPage(s, r, maxChars)
  {
    hide GoodPage, Skip, NextLine, RunesFrom, LinesFrom, RuneSize;
    assert |r.content| < |s|;
    GoodPageIs(s, r, maxChars);
  }

  lemma WholePage(s: Bytes, r: Page, maxChars: nat)
    requires 0 < r.offset <= r.totalLines == LinesFrom(s, 0)
    requires 0 < r.linesShown <= r.limit && r.offset - 1 + r.linesShown <= r.totalLines
    requires Stop(s, r) == Skip(s, Start(s, r), r.linesShown) && r.content == s[Start(s, r)..Stop(s, r)] == Asked(s, r)
    requires RunesFrom(r.content, 0) <= maxChars
    requires r.offset - 1 + r.linesShown < r.totalLines ==> Stop(s, r) < |s| && r.linesShown == r.limit
    requires r.offset - 1 + r.linesShown == r.totalLines ==> Stop(s, r) == |s|
    requires r.offset > 1 ==> Start(s, r) > 0
    requires r.truncated <==> r.offset > 1 || r.offset - 1 + r.linesShown < r.totalLines
    requires r.nextOffset == if r.offset - 1 + r.linesShown < r.totalLines then r.offset + r.linesShown else 0
    ensures GoodPage(s, r, maxChars)
  {
    hide NextLine, RunesFrom, LinesFrom;
    var b := Start(s, r);
    SkipNext(s, b, r.linesShown);
    FirstLineCovered(s, b, r.linesShown, r.content, maxChars);
    AllRunes(r.content, maxChars);
  }

  lemma AllRunes(s: Bytes, n: nat)
    requires RunesFrom(s, 0) <= n
    ensures RunesOn(s, 0, n) == |s|
  {
    RunesCoverLine(s, 0, |s|, n);
    assert s[..|s|] == s;
  }

  lemma SliceIsLines(s: Bytes, starts: seq<nat>, from: nat, to: nat)
    requires LineStarts(s, starts) && from < to <= |starts|
    ensures starts[from] < |s| && (from > 0 ==> starts[from] > 0)
    ensures Skip(s, starts[from], to - from) == if to < |starts| then starts[to] else |s|
    ensures to < |starts| ==> starts[from] < starts[to] < |s|
  {
    SkipSum(s, 0, from, to - from);
    SkipReachesEnd(s, 0, from);
    SkipReachesEnd(s, 0, to);
    SkipReachesEnd(s, 0, 0);
  }

  /** A line starts at the start of the file, and after each newline that does not end it. */
  lemma LineStartsAre(s: Bytes, starts: seq<nat>, p: nat)
    requires LineStarts(s, starts)
    ensures Increases(starts)
    ensures p in starts <==> p < |s| && (p == 0 || s[p - 1] == NEWLINE)
  {
    hide LinesFrom, NextLine, Skip;
    forall i, j | 0 <= i < j < |starts| ensures starts[i] < starts[j] {
      SliceIsLines(s, starts, i, j);
    }
    forall k | 0 <= k < |starts| ensures starts[k] < |s| && (starts[k] == 0 || s[starts[k] - 1] == NEWLINE) {
      SliceIsLines(s, starts, k, k + 1);
      LineStartsAfterNewline(s, 0, k);
    }
    if p < |s| && (p == 0 || s[p - 1] == NEWLINE) {
      StartsLine(s, p);
      var k := Newlines(s, 0, p);
      SkipReachesEnd(s, 0, k);
      assert starts[k] == p;
    }
  }

  predicate Increases(starts: seq<nat>) {
    forall i, j | 0 <= i < j < |starts| :: starts[i] < starts[j]
  }

  lemma StartsLine(s: Bytes, p: nat)
    requires p < |s| && (p == 0 || s[p - 1] == NEWLINE)
    ensures Skip(s, 0, Newlines(s, 0, p)) == p
  {
    NewlinesSkip(s, 0, p);
    var q := Skip(s, 0, Newlines(s, 0, p));
    if q < p {
      NextLineStopsAt(s, q, p - 1);
    }
  }

  lemma {:induction false} NextLineStopsAt(s: Bytes, q: nat, n: nat)
    requires q <= n < |s| && s[n] == NEWLINE
    ensures NextLine(s, q) <= n + 1
    decreases n - q
  {
    if q < n {
      NextLineStopsAt(s, q + 1, n);
    }
  }

  /** A page by the starts of the lines: the lines from the first one asked for up to the limit or
      the end, all of them if they are within the cap, else the runes up to the cap. */
  lemma PageIs(s: Bytes, r: Page, maxChars: nat, starts: seq<nat>)
    requires LineStarts(s, starts) && r.totalLines == |starts| && 0 < r.offset <= |starts| && r.limit > 0 && GoodPage(s, r, maxChars)
    ensures var from := r.offset - 1;
            var to := if from + r.limit < |starts| then from + r.limit else |starts|;
            var b, e := starts[from], if to < |starts| then starts[to] else |s|;
            && b < e <= |s|
            && (RunesFrom(s[b..e], 0) <= maxChars ==>
                  && r.content == s[b..e] && r.linesShown == to - from
                  && r.nextOffset == (if to < |starts| then to + 1 else 0))
            && (RunesFrom(s[b..e], 0) > maxChars ==>
                  && r.content == RunePrefix(s[b..e], maxChars) && RunesFrom(r.content, 0) == maxChars
                  && r.nextOffset == r.offset + r.linesShown && from + r.linesShown < to
                  && starts[from + r.linesShown] <= b + |r.content|
                  && b + |r.content| < (if from + r.linesShown + 1 < |starts| then starts[from + r.linesShown + 1] else |s|))
            && (r.truncated <==> r.content != s)
  {
    hide NextLine, LinesFrom, RunesFrom, RunesOn, Skip, RuneSize, Start;
    var from := r.offset - 1;
    var to := if from + r.limit < |starts| then from + r.limit else |starts|;
    var b, e := starts[from], if to < |starts| then starts[to] else |s|;
    SliceIsLines(s, starts, from, to);
    AskedIs(s, r, starts, to);
    StartIs(s, r, b);
    PageLinesAre(s, r, starts);
    LineStartsAre(s, starts, 0);
    if RunesFrom(s[b..e], 0) <= maxChars {
      AllRunes(s[b..e], maxChars);
    } else {
      RunePrefixCounts(s[b..e], 0, maxChars);
    }
  }

  /** The start of the line after those shown, and of the next. */
  lemma PageLinesAre(s: Bytes, r: Page, starts: seq<nat>)
    requires LineStarts(s, starts) && 0 < r.offset <= |starts|
    ensures var k := r.offset - 1 + r.linesShown;
            && Skip(s, Start(s, r), r.linesShown) == (if k < |starts| then starts[k] else |s|)
            && Skip(s, Start(s, r), r.linesShown + 1) == (if k + 1 < |starts| then starts[k + 1] else |s|)
            && (k < |starts| ==> starts[k] < |s|) && (k + 1 < |starts| ==> starts[k + 1] < |s|)
  {
    hide NextLine, LinesFrom;
    var from := r.offset - 1;
    SkipSum(s, 0, from, r.linesShown);
    SkipSum(s, 0, from, r.linesShown + 1);
    SkipReachesEnd(s, 0, from + r.linesShown);
    SkipReachesEnd(s, 0, from + r.linesShown + 1);
  }

  // ---------------------------------------------------------------------------
  // Reading on from page to page
  // ---------------------------------------------------------------------------

  function Line(s: Bytes, k: nat): Bytes {
    var p := Skip(s, 0, k);
    s[p..NextLine(s, p)]
  }

  /** The first n lines are within the character cap. */
  ghost predicate LinesFit(s: Bytes, n: nat, maxChars: nat) {
    forall k: nat | k < n :: RunesFrom(Line(s, k), 0) <= maxChars
  }

  lemma {:induction false} RunesOfSuffix(s: Bytes, b: nat, i: nat)
    requires b <= i <= |s|
    ensures RunesFrom(s[b..], i - b) == RunesFrom(s, i)
    decreases |s| - i
  {
    if i < |s| {
      assert RuneSize(s[b..], i - b) == RuneSize(s, i);
      hide RuneSize;
      RunesOfSuffix(s, b, i + RuneSize(s, i));
    }
  }

  /** A line of a text has no more runes than the text. */
  lemma LineRunes(s: Bytes, p: nat, q: nat)
    requires p < q <= |s| && (p == 0 || s[p - 1] == NEWLINE) && (q == |s| || s[q - 1] == NEWLINE)
    ensures RunesFrom(s[p..q], 0) <= RunesFrom(s, 0)
  {
    hide RuneSize, RunesFrom;
    var rest := s[p..];
    if p > 0 {
      RunesCoverLine(s, 0, p, 0);
    }
    RunesOfSuffix(s, p, p);
    assert rest[..q - p] == s[p..q];
    RunesCoverLine(rest, 0, q - p, 0);
  }

  lemma {:induction false} NextLineInSlice(s: Bytes, b: nat, e: nat, p: nat)
    requires b <= p <= e <= |s| && NextLine(s, p) <= e
    ensures NextLine(s[b..e], p - b) == NextLine(s, p) - b
    decreases e - p
  {
    if p < e && s[p] != NEWLINE {
      NextLineInSlice(s, b, e, p + 1);
    }
  }

  lemma {:induction false} SkipInSlice(s: Bytes, b: nat, e: nat, p: nat, n: nat)
    requires b <= p <= e <= |s| && Skip(s, p, n) <= e
    ensures Skip(s[b..e], p - b, n) == Skip(s, p, n) - b
    decreases n
  {
    if n > 0 {
      NextLineInSlice(s, b, e, p);
      SkipInSlice(s, b, e, NextLine(s, p), n - 1);
    }
  }

  /** The whole lines of a page. */
  function WholeLines(r: Page): Bytes {
    if r.nextOffset == 0 then r.content else r.content[..Skip(r.content, 0, r.linesShown)]
  }

  /** Each page adds whole lines that all fit, and says where they end. */
  lemma PageAdds(s: Bytes, r: Page, maxChars: nat)
    requires r.offset > 0 && GoodPage(s, r, maxChars) && r.totalLines == LinesFrom(s, 0)
    ensures r.nextOffset == 0 ==> s[..Start(s, r)] + WholeLines(r) == s
    ensures r.nextOffset != 0 ==>
              && r.nextOffset <= r.totalLines
              && s[..Start(s, r)] + WholeLines(r) == s[..Skip(s, 0, r.nextOffset - 1)]
    ensures var to := if r.nextOffset == 0 then r.totalLines else r.nextOffset - 1;
            forall k: nat | r.offset - 1 <= k < to :: RunesFrom(Line(s, k), 0) <= maxChars
  {
    hide RunesFrom, LinesFrom, NextLine, FirstLineFits, Skip, Line;
    var b, n := Start(s, r), r.linesShown;
    SkipSum(s, 0, r.offset - 1, n);
    SkipInSlice(s, b, Stop(s, r), b, n);
    var to := if r.nextOffset == 0 then r.totalLines else r.nextOffset - 1;
    SkipReachesEnd(s, 0, r.offset - 1 + n);
    SkipReachesEnd(s, 0, r.totalLines);
    forall k: nat | r.offset - 1 <= k < to ensures RunesFrom(Line(s, k), 0) <= maxChars {
      LineOfPageFits(s, r, maxChars, k, to);
    }
  }

  lemma LineOfPageFits(s: Bytes, r: Page, maxChars: nat, k: nat, to: nat)
    requires 0 < r.offset && Stop(s, r) <= |s| && r.content == s[Start(s, r)..Stop(s, r)]
    requires RunesFrom(r.content, 0) <= maxChars
    requires r.offset - 1 <= k < to && Skip(s, 0, to) <= Stop(s, r)
    ensures RunesFrom(Line(s, k), 0) <= maxChars
  {
    hide RunesFrom, NextLine, Skip;
    SkipSum(s, 0, r.offset - 1, k - (r.offset - 1));
    SkipNext(s, 0, k);
    SkipSum(s, 0, k + 1, to - (k + 1));
    LineStartsAfterNewline(s, 0, k);
    PieceRunes(s, Start(s, r), Stop(s, r), Skip(s, 0, k));
  }

  lemma SliceOfSlice<T>(s: seq<T>, b: nat, e: nat, p: nat, q: nat)
    requires b <= p <= q <= e <= |s|
    ensures s[b..e][p - b..q - b] == s[p..q]
  {
    forall i | 0 <= i < q - p ensures s[b..e][p - b..q - b][i] == s[p..q][i] {
      assert s[b..e][p - b + i] == s[p + i];
    }
  }

  lemma EmptyLast(s: Bytes)
    ensures NextLine(s, |s|) == |s| && RunesFrom(s[|s|..|s|], 0) == 0
  {
  }

  lemma PieceRunes(s: Bytes, b: nat, e: nat, p: nat)
    requires b <= p <= |s| && NextLine(s, p) <= e <= |s| && (p == 0 || p == |s| || s[p - 1] == NEWLINE)
    ensures RunesFrom(s[p..NextLine(s, p)], 0) <= RunesFrom(s[b..e], 0)
  {
    hide NextLine, RunesFrom;
    if p == |s| {
      EmptyLast(s);
    } else {
      var q := NextLine(s, p);
      SliceOfSlice(s, b, e, p, q);
      LineRunes(s[b..e], p - b, q - b);
    }
  }

  lemma {:induction false} LineStartsAfterNewline(s: Bytes, p: nat, n: nat)
    requires p <= |s| && (p == 0 || p == |s| || s[p - 1] == NEWLINE)
    ensures var q := Skip(s, p, n); q == 0 || q == |s| || s[q - 1] == NEWLINE
    decreases n
  {
    if n > 0 {
      LineStartsAfterNewline(s, NextLine(s, p), n - 1);
    }
  }

  /** A reader that follows nextOffset from the first line, keeping the whole lines of every
      page: it gets through exactly when every line fits the cap, and then has the file, in
      at most as many pages as there are lines. */
  method ReadThrough(s: Bytes, limit: int, maxLength: int) returns (whole: Bytes, pages: nat, done: bool)
    ensures done <==> LinesFit(s, LinesFrom(s, 0), if maxLength <= 0 then 102400 else maxLength)
    ensures done ==> whole == s
    ensures pages <= if s == [] then 1 else LinesFrom(s, 0)
  {
    hide GoodPage, RunesFrom, Skip, NextLine, LinesFrom, WholeLines;
    whole, pages := [], 0;
    ghost var maxChars := if maxLength <= 0 then 102400 else maxLength;
    var offset := 1;
    EmptyHasNoLine(s);
    while true
      invariant s != [] ==> pages < offset <= LinesFrom(s, 0) && whole == s[..Skip(s, 0, offset - 1)]
      invariant s == [] ==> pages == 0
      invariant s != [] ==> LinesFit(s, offset - 1, maxChars)
      decreases LinesFrom(s, 0) - offset
    {
      var r := BoundContent(s, offset, limit, maxLength);
      pages := pages + 1;
      if s == [] {
        return [], 1, true;
      }
      PageAdds(s, r, maxChars);
      PageStuck(s, r, maxChars);
      whole := whole + WholeLines(r);
      if r.nextOffset == 0 {
        return whole, pages, true;
      }
      if r.nextOffset == offset {
        return whole, pages, false;
      }
      offset := r.nextOffset;
    }
  }

  lemma EmptyHasNoLine(s: Bytes)
    ensures LinesFrom(s, 0) == 0 <==> s == []
    ensures Skip(s, 0, 0) == 0
  {
  }

  /** A page that leads nowhere stands at a line that is too long. */
  lemma PageStuck(s: Bytes, r: Page, maxChars: nat)
    requires r.offset > 0 && GoodPage(s, r, maxChars)
    ensures r.nextOffset != 0 ==> r.nextOffset >= r.offset
    ensures r.nextOffset == r.offset ==> RunesFrom(Line(s, r.offset - 1), 0) > maxChars
  {
    hide RunesFrom, Skip, NextLine;
  }
}
