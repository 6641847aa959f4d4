/** Text edits given by line and column, spliced into a text from the last to the first. */
module TextEdits {
  import opened Lines
  import opened Utf8
  import opened Wrappers

  /** A 1-based line and a 1-based rune column. */
  datatype Position = Position(line: int, character: int)

  datatype TextEdit = TextEdit(start: Position, end: Position, newText: Bytes)

  /** An edit resolved to the bytes [start, end) it replaces. */
  datatype Resolved = Resolved(start: nat, end: nat, text: Bytes)

  datatype Error = OutOfBounds

  // ---------------------------------------------------------------------------
  // Positions
  // ---------------------------------------------------------------------------

  /** Where lines begin: at 0 and after every newline, in order. */
  ghost predicate IsLineStarts(content: Bytes, starts: seq<nat>) {
    && |starts| > 0 && starts[0] == 0
    && Increasing(starts)
    && (forall k | 0 < k < |starts| :: starts[k] <= |content| && content[starts[k] - 1] == NEWLINE)
    && (forall i | 0 <= i < |content| && content[i] == NEWLINE :: i + 1 in starts)
  }

  lemma IsLineStart(content: Bytes, starts: seq<nat>, x: nat)
    requires IsLineStarts(content, starts)
    ensures x in starts <==> x == 0 || (x <= |content| && content[x - 1] == NEWLINE)
  {
    if x > 0 && x <= |content| && content[x - 1] == NEWLINE {
      assert x - 1 + 1 in starts;
    }
  }

  lemma {:induction false} SamePrefix(a: seq<nat>, b: seq<nat>, n: nat)
    requires Increasing(a) && Increasing(b) && n <= |a| && n <= |b|
    requires forall x :: x in a <==> x in b
    ensures a[..n] == b[..n]
  {
    if n > 0 {
      SamePrefix(a, b, n - 1);
      assert forall k | 0 <= k < n - 1 :: a[k] == a[..n - 1][k] == b[k];
      assert a[n - 1] in b && b[n - 1] in a;
    }
  }

  /** There is one list of line starts. */
  lemma OneLineStarts(content: Bytes, a: seq<nat>, b: seq<nat>)
    requires IsLineStarts(content, a) && IsLineStarts(content, b)
    ensures a == b
  {
    forall x: nat ensures x in a <==> x in b {
      IsLineStart(content, a, x);
      IsLineStart(content, b, x);
    }
    var n := if |a| < |b| then |a| else |b|;
    SamePrefix(a, b, n);
    NoMore(a, n, b);
    NoMore(b, n, a);
    assert a[..n] == a && b[..n] == b;
  }

  /** An increasing sequence has no more than its first n elements when these are all there are. */
  lemma NoMore(a: seq<nat>, n: nat, b: seq<nat>)
    requires Increasing(a) && n <= |a| && (n < |a| ==> b == a[..n])
    requires forall x :: x in a ==> x in b
    ensures n == |a|
  {
    OneBeyond(a, n);
  }

  lemma OneBeyond(a: seq<nat>, n: nat)
    requires Increasing(a) && n <= |a|
    ensures n < |a| ==> exists x :: x in a && x !in a[..n]
  {
    if n < |a| {
      assert a[n] in a && a[n] !in a[..n];
    }
  }

  /** And there is one. */
  lemma {:induction false} LineStartsExist(content: Bytes)
    ensures exists starts :: IsLineStarts(content, starts)
  {
    if content == [] {
      assert IsLineStarts([], [0]);
    } else {
      var front, last := content[..|content| - 1], content[|content| - 1];
      LineStartsExist(front);
      var starts: seq<nat> :| IsLineStarts(front, starts);
      if last == NEWLINE {
        var more: seq<nat> := starts + [|content|];
        assert forall x <- starts :: x in more;
        assert more[|starts|] == |content|;
        assert IsLineStarts(content, more);
      } else {
        assert IsLineStarts(content, starts);
      }
    }
  }

  /** `col` runes further along the line, stopping at its end. */
  function Walk(content: Bytes, off: nat, col: int): (r: nat)
    requires off <= |content|
    ensures off <= r <= |content|
    decreases |content| - off
  {
    if col > 0 && off < |content| && content[off] != NEWLINE
    then Walk(content, off + RuneSize(content, off), col - 1)
    else off
  }

  function Offset(content: Bytes, starts: seq<nat>, p: Position): (r: nat)
    requires forall k | 0 <= k < |starts| :: starts[k] <= |content|
    ensures r <= |content|
  {
    var line := if p.line < 1 then 0 else p.line - 1;
    if line >= |starts| then |content| else Walk(content, starts[line], p.character - 1)
  }

  method LineStartOffsets(content: Bytes) returns (starts: seq<nat>)
    ensures IsLineStarts(content, starts)
  {
    starts := [0];
    for i := 0 to |content|
      invariant |starts| > 0 && starts[0] == 0
      invariant forall j, k | 0 <= j < k < |starts| :: starts[j] < starts[k]
      invariant forall k | 0 < k < |starts| :: starts[k] <= i && content[starts[k] - 1] == NEWLINE
      invariant forall x | 0 <= x < i && content[x] == NEWLINE :: x + 1 in starts
    {
      if content[i] == NEWLINE {
        starts := starts + [i + 1];
      }
    }
  }

  method OffsetOf(content: Bytes, starts: seq<nat>, p: Position) returns (r: nat)
    requires forall k | 0 <= k < |starts| :: starts[k] <= |content|
    ensures r == Offset(content, starts, p)
  {
    var line := p.line - 1;
    if line < 0 {
      line := 0;
    }
    if line >= |starts| {
      return |content|;
    }
    var off := starts[line];
    var col := p.character - 1;
    while col > 0 && off < |content| && content[off] != NEWLINE
      invariant off <= |content|
      invariant Walk(content, off, col) == Walk(content, starts[line], p.character - 1)
      decreases |content| - off
    {
      off := off + RuneSize(content, off);
      col := col - 1;
    }
    return off;
  }

  /** Walking never passes a newline, and walks further the more columns it is given. */
  lemma {:induction false} WalkStops(content: Bytes, off: nat, col: int, end: nat)
    requires off <= end < |content| && content[end] == NEWLINE
    ensures Walk(content, off, col) <= end
    decreases |content| - off
  {
    if col > 0 && content[off] != NEWLINE {
      WalkStops(content, off + RuneSize(content, off), col - 1, end);
    }
  }

  lemma {:induction false} WalkMonotone(content: Bytes, off: nat, col: int, more: int)
    requires off <= |content| && col <= more
    ensures Walk(content, off, col) <= Walk(content, off, more)
    decreases |content| - off
  {
    if col > 0 && off < |content| && content[off] != NEWLINE {
      WalkMonotone(content, off + RuneSize(content, off), col - 1, more - 1);
    }
  }

  /** The line and the column a position is read as: those before the first are the first. */
  function LineOf(p: Position): nat {
    if p.line < 1 then 1 else p.line
  }

  function ColumnOf(p: Position): nat {
    if p.character < 1 then 1 else p.character
  }

  predicate InOrder(p: Position, q: Position) {
    LineOf(p) < LineOf(q) || (LineOf(p) == LineOf(q) && ColumnOf(p) <= ColumnOf(q))
  }

  /** A line ends before the next one starts. */
  lemma WalkStaysOnLine(content: Bytes, starts: seq<nat>, k: nat, col: int, later: nat)
    requires IsLineStarts(content, starts) && k < later < |starts|
    ensures starts[k] <= |content| && Walk(content, starts[k], col) < starts[later]
  {
    hide Walk;
    WalkStops(content, starts[k], col, starts[k + 1] - 1);
  }

  /** Positions in order have offsets in order. */
  lemma OffsetMonotone(content: Bytes, starts: seq<nat>, p: Position, q: Position)
    requires IsLineStarts(content, starts) && InOrder(p, q)
    ensures Offset(content, starts, p) <= Offset(content, starts, q)
  {
    hide Walk;
    var pl, ql := LineOf(p) - 1, LineOf(q) - 1;
    if ql < |starts| {
      WalkOneColumn(content, starts[pl], p.character - 1);
      if pl == ql {
        WalkMonotone(content, starts[pl], ColumnOf(p) - 1, ColumnOf(q) - 1);
        WalkOneColumn(content, starts[ql], q.character - 1);
      } else {
        WalkStaysOnLine(content, starts, pl, p.character - 1, ql);
      }
    }
  }

  lemma WalkOneColumn(content: Bytes, off: nat, col: int)
    requires off <= |content|
    ensures col <= 0 ==> Walk(content, off, col) == Walk(content, off, 0) == off
  {
  }

  /** Some empty lines and then one of m letters. */
  function Sample(n: nat, m: nat): Bytes {
    seq(n, _ => NEWLINE) + seq(m, _ => 97)
  }

  function SampleStarts(n: nat): seq<nat> {
    seq(n + 1, k => k)
  }

  lemma SampleIsSample(n: nat, m: nat)
    ensures IsLineStarts(Sample(n, m), SampleStarts(n))
  {
    forall i | 0 <= i < n + m && Sample(n, m)[i] == NEWLINE ensures i + 1 in SampleStarts(n) {
      assert SampleStarts(n)[i + 1] == i + 1;
    }
  }

  lemma {:induction false} WalkLetters(n: nat, m: nat, k: nat, col: int)
    requires k <= m
    ensures Walk(Sample(n, m), n + k, col) == n + k + (if col <= 0 then 0 else if col <= m - k then col else m - k)
    decreases m - k
  {
    if col > 0 && k < m {
      assert Sample(n, m)[n + k] == 97;
      WalkLetters(n, m, k + 1, col - 1);
    }
  }

  lemma SampleOffset(n: nat, m: nat, p: Position)
    requires LineOf(p) <= n + 1
    ensures IsLineStarts(Sample(n, m), SampleStarts(n))
    ensures Offset(Sample(n, m), SampleStarts(n), p) ==
            if LineOf(p) <= n then LineOf(p) - 1 else if ColumnOf(p) - 1 <= m then n + ColumnOf(p) - 1 else n + m
  {
    hide RuneSize;
    SampleIsSample(n, m);
    if LineOf(p) <= n {
      assert Sample(n, m)[LineOf(p) - 1] == NEWLINE;
    } else {
      WalkLetters(n, m, 0, p.character - 1);
    }
  }

  /** The sample with just enough lines and letters tells positions out of order. */
  lemma SampleTells(p: Position, q: Position)
    requires !InOrder(p, q)
    ensures var n := LineOf(p) - 1;
            && IsLineStarts(Sample(n, ColumnOf(p) - 1), SampleStarts(n))
            && Offset(Sample(n, ColumnOf(p) - 1), SampleStarts(n), p) > Offset(Sample(n, ColumnOf(p) - 1), SampleStarts(n), q)
  {
    hide Offset, IsLineStarts, Sample, SampleStarts;
    SampleOffset(LineOf(p) - 1, ColumnOf(p) - 1, p);
    SampleOffset(LineOf(p) - 1, ColumnOf(p) - 1, q);
  }

  /** Two positions have their offsets in order in every text exactly when they are in order,
      lines and columns before the first being read as the first. */
  lemma OffsetsInOrderExactly(p: Position, q: Position)
    ensures InOrder(p, q) <==>
              forall content, starts | IsLineStarts(content, starts) :: Offset(content, starts, p) <= Offset(content, starts, q)
  {
    if InOrder(p, q) {
      forall content, starts | IsLineStarts(content, starts) ensures Offset(content, starts, p) <= Offset(content, starts, q) {
        OffsetMonotone(content, starts, p, q);
      }
    } else {
      hide Offset, Sample, SampleStarts;
      SampleTells(p, q);
    }
  }

  /** The reading of line 0 as line 1 matters: as written, (0, 3) precedes (1, 1) and yet
      lies behind it. */
  lemma LineZeroIsLineOne()
    ensures IsLineStarts([97, 98], [0])
    ensures Offset([97, 98], [0], Position(0, 3)) == 2 && Offset([97, 98], [0], Position(1, 1)) == 0
  {
    var c: Bytes := [97, 98];
    assert Walk(c, 0, 2) == Walk(c, 1, 1) == Walk(c, 2, 0);
  }

  // ---------------------------------------------------------------------------
  // Splicing
  // ---------------------------------------------------------------------------

  function Resolve(content: Bytes, starts: seq<nat>, e: TextEdit): (r: Resolved)
    requires forall k | 0 <= k < |starts| :: starts[k] <= |content|
    ensures r.start <= r.end <= |content|
  {
    var start, end := Offset(content, starts, e.start), Offset(content, starts, e.end);
    if end < start then Resolved(end, start, e.newText) else Resolved(start, end, e.newText)
  }

  /** Places an edit before those that do not start after it. */
  function Insert(r: Resolved, rs: seq<Resolved>): seq<Resolved> {
    if rs == [] || !(rs[0].start > r.start) then [r] + rs else [rs[0]] + Insert(r, rs[1..])
  }

  /** The stable sort by descending start that the edits are applied in. */
  function LastFirst(rs: seq<Resolved>): seq<Resolved> {
    if rs == [] then [] else Insert(rs[0], LastFirst(rs[1..]))
  }

  /** One edit after the other on the text as it stands. */
  function Spliced(b: Bytes, rs: seq<Resolved>): Result<Bytes, Error>
    decreases |rs|
  {
    if rs == [] then Ok(b)
    else if rs[0].end > |b| || rs[0].start > rs[0].end then Err(OutOfBounds)
    else Spliced(b[..rs[0].start] + rs[0].text + b[rs[0].end..], rs[1..])
  }

  /** No two edits overlap, and no two start at the same place. */
  ghost predicate Disjoint(rs: seq<Resolved>) {
    forall i, j | 0 <= i < j < |rs| ::
      && rs[i].start != rs[j].start
      && (rs[i].end <= rs[j].start || rs[j].end <= rs[i].start)
  }

  ghost predicate Within(rs: seq<Resolved>, n: nat) {
    forall r | r in rs :: r.start <= r.end <= n
  }

  ghost function AsSet(rs: seq<Resolved>): set<Resolved> {
    set r | r in rs
  }

  ghost predicate StartsAt(edits: set<Resolved>, pos: nat) {
    exists r :: r in edits && r.start == pos
  }

  /** The edit that starts at a position. */
  ghost function EditAt(edits: set<Resolved>, pos: nat): (r: Resolved)
    requires StartsAt(edits, pos)
    ensures r in edits && r.start == pos
  {
    var r :| r in edits && r.start == pos;
    r
  }

  /** The simultaneous splice, read off the original text once from left to right: where an
      edit starts its text is written and the bytes it covers are skipped. It knows the edits
      only as a set. */
  ghost function Scan(content: Bytes, edits: set<Resolved>, pos: nat): Bytes
    requires pos <= |content|
    decreases |content| - pos
  {
    if StartsAt(edits, pos) then
      var r := EditAt(edits, pos);
      if pos < r.end <= |content| then r.text + Scan(content, edits, r.end)
      else if pos < |content| then r.text + ([content[pos]] + Scan(content, edits, pos + 1))
      else r.text
    else if pos < |content| then [content[pos]] + Scan(content, edits, pos + 1)
    else []
  }

  /** Each edit lies wholly after all that follow it in the list. */
  ghost predicate Descending(rs: seq<Resolved>) {
    rs == [] || (AllBefore(rs[1..], rs[0].start) && Descending(rs[1..]))
  }

  ghost predicate AllBefore(rs: seq<Resolved>, pos: nat) {
    forall x | x in rs :: x.start < pos && x.end <= pos
  }

  lemma {:induction false} InsertKeeps(r: Resolved, rs: seq<Resolved>)
    ensures forall x :: x in Insert(r, rs) <==> x == r || x in rs
  {
    if rs != [] && rs[0].start > r.start {
      InsertKeeps(r, rs[1..]);
    }
  }

  lemma {:induction false} LastFirstKeeps(rs: seq<Resolved>)
    ensures forall x :: x in LastFirst(rs) <==> x in rs
  {
    if rs != [] {
      LastFirstKeeps(rs[1..]);
      InsertKeeps(rs[0], LastFirst(rs[1..]));
    }
  }

  lemma {:induction false} InsertDescends(r: Resolved, rs: seq<Resolved>)
    requires Descending(rs) && r.start <= r.end
    requires forall x | x in rs :: x.start <= x.end && x.start != r.start && (x.end <= r.start || r.end <= x.start)
    ensures Descending(Insert(r, rs))
  {
    if rs != [] {
      assert rs[0] in rs;
      if rs[0].start > r.start {
        InsertDescends(r, rs[1..]);
        InsertKeeps(r, rs[1..]);
      } else {
        assert ([r] + rs)[1..] == rs;
      }
    }
  }

  lemma {:induction false} LastFirstDescends(rs: seq<Resolved>, n: nat)
    requires Disjoint(rs) && Within(rs, n)
    ensures Descending(LastFirst(rs))
  {
    if rs != [] {
      var rest := rs[1..];
      LastFirstDescends(rest, n);
      LastFirstKeeps(rest);
      forall x | x in LastFirst(rest)
        ensures x.start <= x.end && x.start != rs[0].start && (x.end <= rs[0].start || rs[0].end <= x.start)
      {
        var k :| 0 <= k < |rest| && rest[k] == x;
        assert rs[k + 1] == x;
      }
      InsertDescends(rs[0], LastFirst(rest));
    }
  }

  ghost predicate OneEach(edits: set<Resolved>) {
    forall q, r | q in edits && r in edits && q.start == r.start :: q == r
  }

  lemma ScanByte(content: Bytes, edits: set<Resolved>, pos: nat)
    requires pos < |content| && forall r | r in edits :: r.start != pos
    ensures Scan(content, edits, pos) == [content[pos]] + Scan(content, edits, pos + 1)
  {
  }

  lemma ScanEdit(content: Bytes, edits: set<Resolved>, r: Resolved)
    requires r in edits && OneEach(edits) && r.start <= r.end <= |content|
    ensures Scan(content, edits, r.start) == r.text + Resume(content, edits, r)
  {
    hide Scan, Resume;
    assert StartsAt(edits, r.start) && EditAt(edits, r.start) == r;
    ScanAt(content, edits, r);
  }

  lemma ScanAt(content: Bytes, edits: set<Resolved>, r: Resolved)
    requires StartsAt(edits, r.start) && EditAt(edits, r.start) == r && r.start <= r.end <= |content|
    ensures Scan(content, edits, r.start) == r.text + Resume(content, edits, r)
  {
    hide StartsAt, EditAt;
    assert r.text + [] == r.text;
  }

  /** The scan after an edit: past what it covers, or from the next byte if it only inserts. */
  ghost function Resume(content: Bytes, edits: set<Resolved>, r: Resolved): Bytes
    requires r.start <= r.end <= |content|
  {
    if r.start < r.end then Scan(content, edits, r.end)
    else if r.start < |content| then [content[r.start]] + Scan(content, edits, r.start + 1)
    else []
  }

  /** Past the last edit the scan copies the text. */
  lemma {:induction false} ScanCopies(content: Bytes, edits: set<Resolved>, pos: nat)
    requires pos <= |content| && forall r | r in edits :: r.start < pos
    ensures Scan(content, edits, pos) == content[pos..]
    decreases |content| - pos
  {
    if pos < |content| {
      ScanByte(content, edits, pos);
      ScanCopies(content, edits, pos + 1);
    }
  }

  /** All other edits lie before the last one. */
  ghost predicate Before(edits: set<Resolved>, last: Resolved) {
    && last !in edits && OneEach(edits)
    && forall r | r in edits :: r.start < last.start && r.start <= r.end <= last.start
  }

  /** The scan up to the last edit, that edit's text, and the rest of the text. */
  lemma {:induction false} ScanRight(content: Bytes, edits: set<Resolved>, last: Resolved, pos: nat)
    requires Before(edits, last) && pos <= last.start <= last.end <= |content|
    ensures Scan(content, edits + {last}, pos)
         == Scan(content[..last.start], edits, pos) + (last.text + content[last.end..])
    decreases last.start - pos
  {
    hide Scan;
    var all, left, rest := edits + {last}, content[..last.start], last.text + content[last.end..];
    if pos == last.start {
      ScanLast(content, edits, last);
      ScanCopies(left, edits, pos);
    } else if r :| r in edits && r.start == pos {
      ScanEdit(content, all, r);
      ScanEdit(left, edits, r);
      if pos < r.end {
        ScanRight(content, edits, last, r.end);
        Assoc(r.text, Scan(left, edits, r.end), rest);
      } else {
        ScanRight(content, edits, last, pos + 1);
        Assoc([content[pos]], Scan(left, edits, pos + 1), rest);
        Assoc(r.text, [content[pos]] + Scan(left, edits, pos + 1), rest);
      }
    } else {
      ScanByte(content, all, pos);
      ScanByte(left, edits, pos);
      ScanRight(content, edits, last, pos + 1);
      Assoc([content[pos]], Scan(left, edits, pos + 1), rest);
    }
  }

  lemma ScanLast(content: Bytes, edits: set<Resolved>, last: Resolved)
    requires Before(edits, last) && last.start <= last.end <= |content|
    ensures Scan(content, edits + {last}, last.start) == last.text + content[last.end..]
  {
    hide Scan;
    var all := edits + {last};
    ScanEdit(content, all, last);
    if last.start < last.end {
      ScanCopies(content, all, last.end);
    } else if last.start < |content| {
      ScanCopies(content, all, last.start + 1);
      assert content[last.start..] == [content[last.start]] + content[last.start + 1..];
    }
  }

  lemma Assoc(a: Bytes, b: Bytes, c: Bytes)
    ensures a + b + c == a + (b + c)
  {
  }

  /** The first of descending edits, and the others before it. */
  lemma SplitDescending(rs: seq<Resolved>, n: nat)
    requires rs != [] && Descending(rs) && Within(rs, n)
    ensures rs[0].start <= rs[0].end <= n
    ensures Before(AsSet(rs[1..]), rs[0]) && AsSet(rs) == AsSet(rs[1..]) + {rs[0]}
    ensures Descending(rs[1..]) && Within(rs[1..], rs[0].start)
  {
    assert rs[0] in rs;
    DescendingStarts(rs);
  }

  lemma {:induction false} DescendingStarts(rs: seq<Resolved>)
    requires Descending(rs)
    ensures OneEach(AsSet(rs)) && (rs != [] ==> OneEach(AsSet(rs[1..])))
  {
    if rs != [] {
      DescendingStarts(rs[1..]);
    }
  }

  /** Splicing disjoint edits from the last to the first is the simultaneous splice. */
  lemma {:induction false} SplicedIsScan(content: Bytes, tail: Bytes, rs: seq<Resolved>)
    requires Descending(rs) && Within(rs, |content|)
    ensures Spliced(content + tail, rs) == Ok(Scan(content, AsSet(rs), 0) + tail)
    decreases |rs|
  {
    hide Scan, Descending, Within, Before;
    if rs == [] {
      ScanCopies(content, {}, 0);
      assert AsSet(rs) == {};
    } else {
      SplitDescending(rs, |content|);
      var r := rs[0];
      var left, rest := content[..r.start], r.text + content[r.end..];
      assert (content + tail)[..r.start] + r.text + (content + tail)[r.end..] == left + (rest + tail);
      SplicedIsScan(left, rest + tail, rs[1..]);
      ScanRight(content, AsSet(rs[1..]), r, 0);
      Assoc(Scan(left, AsSet(rs[1..]), 0), rest, tail);
    }
  }

  ghost function ResolveAll(content: Bytes, starts: seq<nat>, edits: seq<TextEdit>): (rs: seq<Resolved>)
    requires forall k | 0 <= k < |starts| :: starts[k] <= |content|
    ensures Within(rs, |content|)
  {
    seq(|edits|, i requires 0 <= i < |edits| => Resolve(content, starts, edits[i]))
  }

  /** The edits one after the other, the last in the text first. When they are disjoint this
      never fails, and is the simultaneous splice of the set of edits, whatever their order. */
  method ApplyTextEdits(content: Bytes, edits: seq<TextEdit>) returns (r: Result<Bytes, Error>)
    ensures exists starts :: IsLineStarts(content, starts) &&
              var rs := ResolveAll(content, starts, edits);
              && r == Spliced(content, LastFirst(rs))
              && (Disjoint(rs) ==> r == Ok(Scan(content, AsSet(rs), 0)))
  {
    hide Scan, Disjoint, LastFirst;
    var starts := LineStartOffsets(content);
    if |edits| == 0 {
      EmptySorts();
      assert ResolveAll(content, starts, edits) == [];
      r := Ok(content);
    } else {
      var res := ResolveEach(content, starts, edits);
      r := SpliceAll(content, LastFirst(res));
    }
    DisjointSplices(content, ResolveAll(content, starts, edits));
  }

  lemma EmptySorts()
    ensures LastFirst([]) == []
  {
  }

  method ResolveEach(content: Bytes, starts: seq<nat>, edits: seq<TextEdit>) returns (res: seq<Resolved>)
    requires forall k | 0 <= k < |starts| :: starts[k] <= |content|
    ensures res == ResolveAll(content, starts, edits)
  {
    res := [];
    for i := 0 to |edits|
      invariant res == ResolveAll(content, starts, edits)[..i]
    {
      var start := OffsetOf(content, starts, edits[i].start);
      var end := OffsetOf(content, starts, edits[i].end);
      if end < start {
        start, end := end, start;
      }
      res := res + [Resolved(start, end, edits[i].newText)];
    }
  }

  method SpliceAll(content: Bytes, sorted: seq<Resolved>) returns (r: Result<Bytes, Error>)
    ensures r == Spliced(content, sorted)
  {
    var b := content;
    for i := 0 to |sorted|
      invariant Spliced(b, sorted[i..]) == Spliced(content, sorted)
    {
      var e := sorted[i];
      assert sorted[i..][0] == e && sorted[i..][1..] == sorted[i + 1..];
      if e.end > |b| || e.start > e.end {
        return Err(OutOfBounds);
      }
      b := b[..e.start] + e.text + b[e.end..];
    }
    return Ok(b);
  }

  lemma DisjointSplices(content: Bytes, rs: seq<Resolved>)
    requires Within(rs, |content|)
    ensures Disjoint(rs) ==> Spliced(content, LastFirst(rs)) == Ok(Scan(content, AsSet(rs), 0))
  {
    hide Scan, Disjoint, Spliced, Descending;
    if Disjoint(rs) {
      LastFirstDescends(rs, |content|);
      LastFirstKeeps(rs);
      assert AsSet(LastFirst(rs)) == AsSet(rs);
      assert content + [] == content;
      SplicedIsScan(content, [], LastFirst(rs));
      assert Scan(content, AsSet(rs), 0) + [] == Scan(content, AsSet(rs), 0);
    }
  }

  /** Disjoint edits give the same text in whatever order they are listed. */
  lemma OrderDoesNotMatter(content: Bytes, rs: seq<Resolved>, other: seq<Resolved>)
    requires Within(rs, |content|) && Disjoint(rs) && Disjoint(other) && AsSet(rs) == AsSet(other)
    ensures Spliced(content, LastFirst(rs)) == Spliced(content, LastFirst(other))
  {
    assert forall r :: r in other <==> r in AsSet(other);
    assert forall r :: r in rs <==> r in AsSet(rs);
    DisjointSplices(content, rs);
    DisjointSplices(content, other);
  }

  // ---------------------------------------------------------------------------
  // Positions and edits, read off the text
  // ---------------------------------------------------------------------------

  predicate Ends(content: Bytes, i: nat) {
    i >= |content| || content[i] == NEWLINE
  }

  lemma FirstByte(c: char)
    ensures Encode(c as int)[0] == NEWLINE <==> c == '\n'
  {
  }

  lemma EncodeConcat(a: string, b: string)
    ensures EncodeText(a + b) == EncodeText(a) + EncodeText(b)
  {
    if a == "" {
      assert a + b == b;
    } else {
      assert (a + b)[0] == a[0] && (a + b)[1..] == a[1..] + b;
      EncodeConcat(a[1..], b);
    }
  }

  function AtMost(n: int, max: nat): nat {
    if n <= 0 then 0 else if n <= max then n else max
  }

  /** Along a line of text, so many columns are so many characters, as far as the line goes. */
  lemma {:induction false} WalkIsCharacters(before: Bytes, line: string, after: Bytes, col: int)
    requires OneLine(line) && Ends(after, 0)
    ensures Walk(before + EncodeText(line) + after, |before|, col) == |before| + |EncodeText(line[..AtMost(col, |line|)])|
    decreases |line|
  {
    hide RuneSize, Encode;
    var s := before + EncodeText(line) + after;
    if line == "" {
      assert s[|before|..] == after;
      assert after != [] ==> s[|before|] == after[0];
    } else if col <= 0 {
      assert line[..0] == "";
    } else {
      var e, rest := Encode(line[0] as int), EncodeText(line[1..]);
      assert s == before + e + (rest + after) && s == (before + e) + rest + after;
      FirstByte(line[0]);
      EncodedRune(before, line[0] as int, rest + after);
      NonEmptyEncoding(line[0] as int);
      assert s[|before|] == e[0];
      WalkIsCharacters(before + e, line[1..], after, col - 1);
      var n := AtMost(col, |line|);
      assert line[..n][0] == line[0] && line[..n][1..] == line[1..][..n - 1];
    }
  }

  /** A position in a text: on line k, column c, it lies before the c-th character of the line or at
      the line's end; the lines and columns before the first are the first, and past the last line
      lies the end of the text. */
  lemma PositionIs(before: Bytes, line: string, after: Bytes, starts: seq<nat>, k: nat, p: Position)
    requires IsLineStarts(before + EncodeText(line) + after, starts) && k < |starts| && starts[k] == |before|
    requires OneLine(line) && Ends(after, 0)
    ensures p.line == k + 1 || (p.line < 1 && k == 0) ==>
              Offset(before + EncodeText(line) + after, starts, p) == |before| + |EncodeText(line[..AtMost(p.character - 1, |line|)])|
    ensures p.line > |starts| ==> Offset(before + EncodeText(line) + after, starts, p) == |before + EncodeText(line) + after|
  {
    hide Walk, EncodeText;
    WalkIsCharacters(before, line, after, p.character - 1);
  }

  /** An edit replaces what lies between its two positions, whichever comes first. */
  lemma ResolvedIs(content: Bytes, starts: seq<nat>, e: TextEdit)
    requires IsLineStarts(content, starts)
    ensures var a, b := Offset(content, starts, e.start), Offset(content, starts, e.end);
            && (a <= b ==> Resolve(content, starts, e) == Resolved(a, b, e.newText))
            && (b <= a ==> Resolve(content, starts, e) == Resolved(b, a, e.newText))
  {
  }

  /** The first edit of a list replaces its bytes, if the text has them, and the others follow. */
  lemma FirstIsSpliced(content: Bytes, r: Resolved, rs: seq<Resolved>)
    ensures Spliced(content, []) == Ok(content)
    ensures r.start <= r.end <= |content| ==> Spliced(content, [r] + rs) == Spliced(content[..r.start] + r.text + content[r.end..], rs)
    ensures !(r.start <= r.end <= |content|) ==> Spliced(content, [r] + rs) == Err(OutOfBounds)
  {
    assert ([r] + rs)[1..] == rs;
  }

  /** One edit alone. */
  lemma OneEditIsSpliced(content: Bytes, r: Resolved)
    requires r.start <= r.end <= |content|
    ensures Spliced(content, LastFirst([r])) == Ok(content[..r.start] + r.text + content[r.end..])
  {
    EmptySorts();
    assert [r][1..] == [] && LastFirst([r]) == [r] + [];
    FirstIsSpliced(content, r, []);
  }

  /** The edits that start at one place, as listed. */
  function StartingAt(rs: seq<Resolved>, pos: nat): seq<Resolved> {
    if rs == [] then [] else (if rs[0].start == pos then [rs[0]] else []) + StartingAt(rs[1..], pos)
  }

  predicate StartsDescend(rs: seq<Resolved>) {
    forall i, j | 0 <= i < j < |rs| :: rs[i].start >= rs[j].start
  }

  lemma {:induction false} InsertSorts(r: Resolved, rs: seq<Resolved>)
    requires StartsDescend(rs)
    ensures StartsDescend(Insert(r, rs))
  {
    if rs != [] && rs[0].start > r.start {
      InsertSorts(r, rs[1..]);
      InsertKeeps(r, rs[1..]);
      var rest := Insert(r, rs[1..]);
      assert Insert(r, rs) == [rs[0]] + rest;
      forall x | x in rest ensures rs[0].start >= x.start {
        assert x == r || x in rs[1..];
      }
    }
  }

  lemma {:induction false} InsertPermutes(r: Resolved, rs: seq<Resolved>)
    ensures multiset(Insert(r, rs)) == multiset{r} + multiset(rs)
  {
    if rs != [] && rs[0].start > r.start {
      InsertPermutes(r, rs[1..]);
      assert rs == [rs[0]] + rs[1..];
    }
  }

  lemma StartingAtFirst(r: Resolved, rs: seq<Resolved>, pos: nat)
    ensures StartingAt([r] + rs, pos) == (if r.start == pos then [r] else []) + StartingAt(rs, pos)
  {
    assert ([r] + rs)[1..] == rs;
  }

  lemma OneIsEmpty<T>(a: seq<T>, b: seq<T>, c: seq<T>)
    requires a == [] || b == []
    ensures a + (b + c) == b + (a + c)
  {
  }

  lemma {:induction false} InsertKeepsPlace(r: Resolved, rs: seq<Resolved>, pos: nat)
    ensures StartingAt(Insert(r, rs), pos) == (if r.start == pos then [r] else []) + StartingAt(rs, pos)
  {
    if rs != [] && rs[0].start > r.start {
      InsertKeepsPlace(r, rs[1..], pos);
      StartingAtFirst(rs[0], Insert(r, rs[1..]), pos);
      StartingAtFirst(rs[0], rs[1..], pos);
      assert rs == [rs[0]] + rs[1..];
      hide StartingAt, Insert;
      OneIsEmpty(if rs[0].start == pos then [rs[0]] else [], if r.start == pos then [r] else [], StartingAt(rs[1..], pos));
    } else {
      assert ([r] + rs)[1..] == rs;
    }
  }

  /** The edits are sorted by where they start, the last first; those that start at one place keep
      their order. */
  lemma {:induction false} SortedLastFirst(rs: seq<Resolved>, pos: nat)
    ensures var s := LastFirst(rs);
            StartsDescend(s) && multiset(s) == multiset(rs) && StartingAt(s, pos) == StartingAt(rs, pos)
  {
    if rs != [] {
      SortedLastFirst(rs[1..], pos);
      InsertSorts(rs[0], LastFirst(rs[1..]));
      InsertPermutes(rs[0], LastFirst(rs[1..]));
      InsertKeepsPlace(rs[0], LastFirst(rs[1..]), pos);
      assert rs == [rs[0]] + rs[1..];
    }
  }
}
