/** The "*** Begin Patch" envelope: a line-driven parser and the printer it inverts. */
module PatchFormat {
  import opened Lines
  import opened PatchApply

  datatype PatchOp =
    | Add(path: string, body: string)
    | Update(path: string, hunks: seq<Hunk>)
    | Delete(path: string)

  datatype ParseError =
    NoBegin | NoEnd | NoOperations | NoHunks(path: string) | BadLine(line: string)

  datatype Parsed<+T> = Parsed(value: T) | Rejected(error: ParseError)

  const BEGIN := "*** Begin Patch"
  const END := "*** End Patch"
  const ADD := "*** Add File: "
  const UPDATE := "*** Update File: "
  const DELETE := "*** Delete File: "

  predicate IsMarker(line: string) {
    "*** " <= line
  }

  // ---------------------------------------------------------------------------
  // What the parser computes, line by line
  // ---------------------------------------------------------------------------

  /** How many lines of an Add File body come before the next section. */
  function BodyLength(lines: seq<string>): (n: nat)
    ensures n <= |lines|
    ensures forall i | 0 <= i < n :: !IsMarker(lines[i])
    ensures n < |lines| ==> IsMarker(lines[n])
  {
    if lines == [] || IsMarker(lines[0]) then 0 else 1 + BodyLength(lines[1..])
  }

  /** The position of the first body line without a '+', or the body's length. */
  function PlusLength(body: seq<string>): (n: nat)
    ensures n <= |body|
    ensures forall i | 0 <= i < n :: "+" <= body[i]
    ensures n < |body| ==> !("+" <= body[n])
  {
    if body == [] || !("+" <= body[0]) then 0 else 1 + PlusLength(body[1..])
  }

  /** Body lines without their leading character. */
  function Stripped(lines: seq<string>): seq<string>
    requires forall i | 0 <= i < |lines| :: lines[i] != ""
  {
    seq(|lines|, i requires 0 <= i < |lines| => lines[i][1..])
  }

  function AddContent(body: seq<string>): string {
    if body == [] then "" else Join(body) + "\n"
  }

  /** The hunks closed so far, the one being read, and whether one has been begun. */
  datatype HunkState = HunkState(hunks: seq<Hunk>, cur: Hunk, open: bool) {
    function Flushed(): seq<Hunk> {
      if open && !IsBlank(cur) then hunks + [cur] else hunks
    }

    function Context(l: string): HunkState {
      HunkState(hunks, Hunk(cur.oldLines + [l], cur.newLines + [l]), true)
    }
  }

  predicate IsBlank(h: Hunk) {
    h.oldLines == [] && h.newLines == []
  }

  const NO_HUNKS := HunkState([], Hunk([], []), false)

  /** One body line of an Update File section. */
  function HunkLine(st: HunkState, l: string): Parsed<HunkState> {
    if "@@" <= l then Parsed(HunkState(st.Flushed(), Hunk([], []), true))
    else if " " <= l then Parsed(st.Context(l[1..]))
    else if "-" <= l then Parsed(HunkState(st.hunks, Hunk(st.cur.oldLines + [l[1..]], st.cur.newLines), true))
    else if "+" <= l then Parsed(HunkState(st.hunks, Hunk(st.cur.oldLines, st.cur.newLines + [l[1..]]), true))
    else if l == "" then Parsed(st.Context(""))
    else Rejected(BadLine(l))
  }

  /** The hunks of an Update File body and the lines after it. */
  function HunksFrom(path: string, lines: seq<string>, st: HunkState): (r: Parsed<(seq<Hunk>, seq<string>)>)
    ensures r.Parsed? ==> |r.value.1| <= |lines|
  {
    if lines == [] || IsMarker(lines[0]) then
      if st.Flushed() == [] then Rejected(NoHunks(path)) else Parsed((st.Flushed(), lines))
    else
      match HunkLine(st, lines[0])
      case Rejected(e) => Rejected(e)
      case Parsed(next) => HunksFrom(path, lines[1..], next)
  }

  /** One file section at the head of `lines`, and the lines after it. */
  function Section(lines: seq<string>): (r: Parsed<(PatchOp, seq<string>)>)
    requires lines != []
    ensures r.Parsed? ==> |r.value.1| < |lines|
  {
    var line, rest := lines[0], lines[1..];
    if ADD <= line then
      var path, n := TrimSpace(line[|ADD|..]), BodyLength(rest);
      var good := PlusLength(rest[..n]);
      if good < n then Rejected(BadLine(rest[good]))
      else Parsed((Add(path, AddContent(Stripped(rest[..n]))), rest[n..]))
    else if DELETE <= line then Parsed((Delete(TrimSpace(line[|DELETE|..])), rest))
    else if UPDATE <= line then
      var path := TrimSpace(line[|UPDATE|..]);
      match HunksFrom(path, rest, NO_HUNKS)
      case Rejected(e) => Rejected(e)
      case Parsed((hunks, after)) => Parsed((Update(path, hunks), after))
    else Rejected(BadLine(line))
  }

  /** The file sections up to the end marker, after those already read. */
  function Sections(lines: seq<string>, ops: seq<PatchOp>): Parsed<seq<PatchOp>>
    decreases |lines|
  {
    if lines == [] then Rejected(NoEnd)
    else if TrimSpace(lines[0]) == END then
      if ops == [] then Rejected(NoOperations) else Parsed(ops)
    else
      match Section(lines)
      case Rejected(e) => Rejected(e)
      case Parsed((op, rest)) => Sections(rest, ops + [op])
  }

  function AfterBegin(lines: seq<string>): Parsed<seq<string>> {
    if lines == [] then Rejected(NoBegin)
    else if TrimSpace(lines[0]) == "" then AfterBegin(lines[1..])
    else if TrimSpace(lines[0]) == BEGIN then Parsed(lines[1..])
    else Rejected(NoBegin)
  }

  /** The lines of the envelope: its trailing newline opens no further line. */
  function PatchLines(patch: string): seq<string> {
    var ls := Split(patch);
    if ls[|ls| - 1] == "" then ls[..|ls| - 1] else ls
  }

  function Envelope(patch: string): Parsed<seq<PatchOp>> {
    match AfterBegin(PatchLines(patch))
    case Rejected(e) => Rejected(e)
    case Parsed(rest) => Sections(rest, [])
  }

  // ---------------------------------------------------------------------------
  // The printer
  // ---------------------------------------------------------------------------

  function Marked(mark: char, lines: seq<string>): seq<string> {
    seq(|lines|, i requires 0 <= i < |lines| => [mark] + lines[i])
  }

  function PrintHunk(h: Hunk): seq<string> {
    ["@@"] + Marked('-', h.oldLines) + Marked('+', h.newLines)
  }

  function PrintHunks(hs: seq<Hunk>): seq<string> {
    if hs == [] then [] else PrintHunk(hs[0]) + PrintHunks(hs[1..])
  }

  /** The lines of a new file's body: none, or newline-terminated ones. */
  function BodyLines(body: string): seq<string> {
    if body == "" then [] else var ls := Split(body); ls[..|ls| - 1]
  }

  function PrintOp(op: PatchOp): seq<string> {
    match op
    case Add(path, body) => [ADD + path] + Marked('+', BodyLines(body))
    case Update(path, hunks) => [UPDATE + path] + PrintHunks(hunks)
    case Delete(path) => [DELETE + path]
  }

  function PrintOps(ops: seq<PatchOp>): seq<string> {
    if ops == [] then [] else PrintOp(ops[0]) + PrintOps(ops[1..])
  }

  function Print(ops: seq<PatchOp>): string {
    Join([BEGIN] + PrintOps(ops) + [END]) + "\n"
  }

  predicate PrintableHunk(h: Hunk) {
    !IsBlank(h) && AllOneLine(h.oldLines) && AllOneLine(h.newLines)
  }

  /** Operations the envelope can express: a trimmed one-line path, a body that is empty or
      newline-terminated, at least one hunk and none of them blank. */
  predicate Printable(op: PatchOp) {
    && OneLine(op.path) && TrimSpace(op.path) == op.path
    && match op
       case Add(_, body) => body == "" || body[|body| - 1] == '\n'
       case Update(_, hunks) => hunks != [] && forall k | 0 <= k < |hunks| :: PrintableHunk(hunks[k])
       case Delete(_) => true
  }

  predicate AllPrintable(ops: seq<PatchOp>) {
    forall k | 0 <= k < |ops| :: Printable(ops[k])
  }

  // ---------------------------------------------------------------------------
  // Printing, then parsing
  // ---------------------------------------------------------------------------

  predicate AtMarker(lines: seq<string>) {
    lines != [] && IsMarker(lines[0])
  }

  lemma ReadLine(path: string, l: string, rest: seq<string>, st: HunkState, next: HunkState)
    requires !IsMarker(l) && HunkLine(st, l) == Parsed(next)
    ensures HunksFrom(path, [l] + rest, st) == HunksFrom(path, rest, next)
  {
    assert ([l] + rest)[1..] == rest;
  }

  lemma MarkedLine(mark: char, x: string)
    requires mark == '-' || mark == '+'
    ensures var l := [mark] + x;
            && l != "" && l[1..] == x && !IsMarker(l) && !("@@" <= l) && !(" " <= l)
            && ("-" <= l <==> mark == '-') && ("+" <= l <==> mark == '+')
  {
    var l := [mark] + x;
    assert l[0] == mark;
    assert l[..1] == [mark];
  }

  lemma HunksStop(path: string, l: string, rest: seq<string>, st: HunkState)
    requires !IsMarker(l) && HunkLine(st, l).Rejected?
    ensures HunksFrom(path, [l] + rest, st) == Rejected(HunkLine(st, l).error)
  {
  }

  lemma HunksEnd(path: string, lines: seq<string>, st: HunkState)
    requires lines == [] || IsMarker(lines[0])
    ensures HunksFrom(path, lines, st) == if st.Flushed() == [] then Rejected(NoHunks(path)) else Parsed((st.Flushed(), lines))
  {
  }

  lemma {:induction false} ReadDeleted(path: string, ls: seq<string>, st: HunkState, rest: seq<string>)
    requires st.open
    ensures HunksFrom(path, Marked('-', ls) + rest, st)
         == HunksFrom(path, rest, st.(cur := Hunk(st.cur.oldLines + ls, st.cur.newLines)))
    decreases |ls|
  {
    hide HunksFrom, IsMarker;
    if ls == [] {
      assert Marked('-', ls) + rest == rest && st.cur.oldLines + ls == st.cur.oldLines;
    } else {
      MarkedLine('-', ls[0]);
      var l, next := ['-'] + ls[0], st.(cur := Hunk(st.cur.oldLines + [ls[0]], st.cur.newLines));
      assert Marked('-', ls) + rest == [l] + (Marked('-', ls[1..]) + rest);
      ReadLine(path, l, Marked('-', ls[1..]) + rest, st, next);
      ReadDeleted(path, ls[1..], next, rest);
      assert st.cur.oldLines + [ls[0]] + ls[1..] == st.cur.oldLines + ls;
    }
  }

  lemma {:induction false} ReadAdded(path: string, ls: seq<string>, st: HunkState, rest: seq<string>)
    requires st.open
    ensures HunksFrom(path, Marked('+', ls) + rest, st)
         == HunksFrom(path, rest, st.(cur := Hunk(st.cur.oldLines, st.cur.newLines + ls)))
    decreases |ls|
  {
    hide HunksFrom, IsMarker;
    if ls == [] {
      assert Marked('+', ls) + rest == rest && st.cur.newLines + ls == st.cur.newLines;
    } else {
      MarkedLine('+', ls[0]);
      var l, next := ['+'] + ls[0], st.(cur := Hunk(st.cur.oldLines, st.cur.newLines + [ls[0]]));
      assert Marked('+', ls) + rest == [l] + (Marked('+', ls[1..]) + rest);
      ReadLine(path, l, Marked('+', ls[1..]) + rest, st, next);
      ReadAdded(path, ls[1..], next, rest);
      assert st.cur.newLines + [ls[0]] + ls[1..] == st.cur.newLines + ls;
    }
  }

  lemma ReadHunk(path: string, h: Hunk, st: HunkState, rest: seq<string>)
    ensures HunksFrom(path, PrintHunk(h) + rest, st) == HunksFrom(path, rest, HunkState(st.Flushed(), h, true))
  {
    hide HunksFrom;
    var begun := HunkState(st.Flushed(), Hunk([], []), true);
    var deleted, added := Marked('-', h.oldLines), Marked('+', h.newLines);
    assert PrintHunk(h) + rest == ["@@"] + (deleted + (added + rest));
    ReadLine(path, "@@", deleted + (added + rest), st, begun);
    ReadDeleted(path, h.oldLines, begun, added + rest);
    assert [] + h.oldLines == h.oldLines && [] + h.newLines == h.newLines;
    ReadAdded(path, h.newLines, begun.(cur := Hunk(h.oldLines, [])), rest);
  }

  lemma {:induction false} ReadHunks(path: string, hs: seq<Hunk>, st: HunkState, rest: seq<string>)
    requires AtMarker(rest) && st.Flushed() + hs != []
    requires forall k | 0 <= k < |hs| :: !IsBlank(hs[k])
    ensures HunksFrom(path, PrintHunks(hs) + rest, st) == Parsed((st.Flushed() + hs, rest))
    decreases |hs|
  {
    if hs == [] {
      assert PrintHunks(hs) + rest == rest && st.Flushed() + hs == st.Flushed();
    } else {
      hide HunksFrom;
      var next := HunkState(st.Flushed(), hs[0], true);
      assert PrintHunks(hs) + rest == PrintHunk(hs[0]) + (PrintHunks(hs[1..]) + rest);
      ReadHunk(path, hs[0], st, PrintHunks(hs[1..]) + rest);
      assert next.Flushed() + hs[1..] == st.Flushed() + hs;
      ReadHunks(path, hs[1..], next, rest);
    }
  }

  lemma ReadBody(lines: seq<string>, rest: seq<string>)
    requires AtMarker(rest)
    ensures var text := Marked('+', lines) + rest;
            BodyLength(text) == PlusLength(text[..|lines|]) == |lines| && text[|lines|..] == rest
    ensures forall i | 0 <= i < |lines| :: Marked('+', lines)[i] != ""
    ensures Stripped(Marked('+', lines)) == lines && (Marked('+', lines) + rest)[..|lines|] == Marked('+', lines)
  {
    var text := Marked('+', lines) + rest;
    forall i | 0 <= i < |lines| ensures "+" <= text[i] && !IsMarker(text[i]) {
      assert text[i] == ['+'] + lines[i] && text[i][0] == '+';
    }
    assert IsMarker(text[|lines|]);
    forall i | 0 <= i < |lines| ensures Marked('+', lines)[i][1..] == lines[i] {
    }
  }

  lemma BodyRoundTrip(body: string)
    requires body == "" || body[|body| - 1] == '\n'
    ensures AddContent(BodyLines(body)) == body
    ensures AllOneLine(BodyLines(body))
  {
    if body != "" {
      var ls := Split(body);
      SplitPieces(body);
      JoinSplit(body);
      LastPiece(body);
      var lines := ls[..|ls| - 1];
      assert ls == lines + [""];
      JoinTerminated(lines);
    }
  }

  /** Text ending in a newline splits into at least two pieces, the last one empty. */
  lemma {:induction false} LastPiece(s: string)
    requires s != "" && s[|s| - 1] == '\n'
    ensures |Split(s)| >= 2 && Split(s)[|Split(s)| - 1] == ""
  {
    if |s| > 1 {
      LastPiece(s[1..]);
    } else {
      assert Split(s[1..]) == [""];
    }
  }

  /** A section header is no end marker, and reads back as its path. */
  lemma ReadHeader(header: string, path: string)
    requires header == ADD || header == UPDATE || header == DELETE
    ensures IsMarker(header + path) && TrimSpace(header + path) != END
    ensures header <= header + path && (header + path)[|header|..] == path
    ensures ADD <= header + path <==> header == ADD
    ensures UPDATE <= header + path <==> header == UPDATE
    ensures DELETE <= header + path <==> header == DELETE
  {
    var line := header + path;
    assert line[4] == header[4] && line[0] == header[0] == '*';
    TrimKeepsStart(line);
    assert END[4] == 'E' && ADD[4] == 'A' && UPDATE[4] == 'U' && DELETE[4] == 'D';
    assert line[..|header|] == header;
    assert line[..4] == header[..4] == "*** ";
  }

  lemma ReadAdd(path: string, body: string, rest: seq<string>)
    requires Printable(Add(path, body)) && AtMarker(rest)
    ensures Section(PrintOp(Add(path, body)) + rest) == Parsed((Add(path, body), rest))
  {
    hide BodyLength, PlusLength, Stripped, AddContent, BodyLines, IsMarker, TrimSpace, Marked;
    ReadHeader(ADD, path);
    ReadBody(BodyLines(body), rest);
    BodyRoundTrip(body);
    var text := Marked('+', BodyLines(body)) + rest;
    assert PrintOp(Add(path, body)) + rest == [ADD + path] + text;
    assert ([ADD + path] + text)[1..] == text;
  }

  lemma ReadUpdate(path: string, hunks: seq<Hunk>, rest: seq<string>)
    requires Printable(Update(path, hunks)) && AtMarker(rest)
    ensures Section(PrintOp(Update(path, hunks)) + rest) == Parsed((Update(path, hunks), rest))
  {
    var text := PrintHunks(hunks) + rest;
    assert PrintOp(Update(path, hunks)) + rest == [UPDATE + path] + text;
    assert ([UPDATE + path] + text)[1..] == text;
    ReadHeader(UPDATE, path);
    assert [] + hunks == hunks;
    ReadHunks(path, hunks, NO_HUNKS, rest);
    hide HunksFrom, PrintHunks, IsMarker, TrimSpace;
  }

  lemma ReadSection(op: PatchOp, rest: seq<string>)
    requires Printable(op) && AtMarker(rest)
    ensures AtMarker(PrintOp(op)) && TrimSpace(PrintOp(op)[0]) != END
    ensures Section(PrintOp(op) + rest) == Parsed((op, rest))
  {
    match op
    case Add(path, body) =>
      ReadHeader(ADD, path);
      hide Section;
      ReadAdd(path, body, rest);
    case Delete(path) =>
      ReadHeader(DELETE, path);
      hide TrimSpace, IsMarker;
      assert PrintOp(op) + rest == [DELETE + path] + rest;
    case Update(path, hunks) =>
      ReadHeader(UPDATE, path);
      hide Section;
      ReadUpdate(path, hunks, rest);
  }

  lemma ReadSectionThen(op: PatchOp, rest: seq<string>, before: seq<PatchOp>)
    requires Printable(op) && AtMarker(rest)
    ensures Sections(PrintOp(op) + rest, before) == Sections(rest, before + [op])
  {
    ReadSection(op, rest);
    hide Section, PrintOp, TrimSpace;
    assert (PrintOp(op) + rest)[0] == PrintOp(op)[0];
  }

  lemma ReadEnd(before: seq<PatchOp>)
    requires before != []
    ensures Sections([END], before) == Parsed(before)
  {
    assert TrimSpace(END) == END;
  }

  lemma {:induction false} ReadSections(ops: seq<PatchOp>, before: seq<PatchOp>)
    requires AllPrintable(ops) && before + ops != []
    ensures Sections(PrintOps(ops) + [END], before) == Parsed(before + ops)
    decreases |ops|
  {
    hide Sections, PrintOp, TrimSpace, Printable, IsMarker;
    if ops == [] {
      assert PrintOps(ops) + [END] == [END] && before + ops == before;
      ReadEnd(before);
    } else {
      StartsAtMarker(ops[1..]);
      var rest := PrintOps(ops[1..]) + [END];
      assert PrintOps(ops) + [END] == PrintOp(ops[0]) + rest;
      ReadSectionThen(ops[0], rest, before);
      ReadSections(ops[1..], before + [ops[0]]);
      assert before + [ops[0]] + ops[1..] == before + ops;
    }
  }

  lemma StartsAtMarker(ops: seq<PatchOp>)
    ensures AtMarker(PrintOps(ops) + [END])
  {
    if ops != [] {
      match ops[0]
      case Add(path, _) => ReadHeader(ADD, path);
      case Update(path, _) => ReadHeader(UPDATE, path);
      case Delete(path) => ReadHeader(DELETE, path);
    }
  }

  /** The parser inverts the printer. */
  lemma ParsePrinted(ops: seq<PatchOp>)
    requires ops != [] && AllPrintable(ops)
    ensures Envelope(Print(ops)) == Parsed(ops)
  {
    hide Sections, PrintOps, PrintOp, Printable;
    var lines := [BEGIN] + PrintOps(ops) + [END];
    PrintedOneLine(ops);
    SplitTerminatedLines(lines);
    assert PatchLines(Print(ops)) == lines;
    assert TrimSpace(BEGIN) == BEGIN;
    assert lines[1..] == PrintOps(ops) + [END];
    ReadSections(ops, []);
    assert [] + ops == ops;
  }

  lemma OpOneLine(op: PatchOp)
    requires Printable(op)
    ensures AllOneLine(PrintOp(op))
  {
    match op {
      case Add(_, body) => BodyRoundTrip(body);
      case Update(_, hunks) => HunksOneLine(hunks);
      case Delete(_) =>
    }
  }

  lemma {:induction false} PrintedOneLine(ops: seq<PatchOp>)
    requires AllPrintable(ops)
    ensures AllOneLine(PrintOps(ops))
  {
    hide Printable, PrintOp;
    if ops != [] {
      OpOneLine(ops[0]);
      PrintedOneLine(ops[1..]);
    }
  }

  lemma {:induction false} HunksOneLine(hs: seq<Hunk>)
    requires forall k | 0 <= k < |hs| :: PrintableHunk(hs[k])
    ensures AllOneLine(PrintHunks(hs))
  {
    if hs != [] {
      assert PrintableHunk(hs[0]);
      HunksOneLine(hs[1..]);
    }
  }

  // ---------------------------------------------------------------------------
  // Parsing, then printing
  // ---------------------------------------------------------------------------

  lemma {:induction false} HunksArePrintable(path: string, lines: seq<string>, st: HunkState)
    requires AllOneLine(lines) && AllOneLine(st.cur.oldLines) && AllOneLine(st.cur.newLines)
    requires forall k | 0 <= k < |st.hunks| :: PrintableHunk(st.hunks[k])
    ensures var r := HunksFrom(path, lines, st);
            r.Parsed? ==> r.value.0 != [] && AllOneLine(r.value.1) && forall k | 0 <= k < |r.value.0| :: PrintableHunk(r.value.0[k])
    decreases |lines|
  {
    if lines != [] && !IsMarker(lines[0]) && HunkLine(st, lines[0]).Parsed? {
      assert OneLine(lines[0]) && (lines[0] != "" ==> OneLine(lines[0][1..]));
      HunksArePrintable(path, lines[1..], HunkLine(st, lines[0]).value);
    }
  }

  lemma SectionIsPrintable(lines: seq<string>)
    requires lines != [] && AllOneLine(lines)
    ensures Section(lines).Parsed? ==> Printable(Section(lines).value.0) && AllOneLine(Section(lines).value.1)
  {
    var line, rest := lines[0], lines[1..];
    assert OneLine(line);
    if ADD <= line {
      TrimAgain(line[|ADD|..]);
    } else if DELETE <= line {
      TrimAgain(line[|DELETE|..]);
    } else if UPDATE <= line {
      TrimAgain(line[|UPDATE|..]);
      HunksArePrintable(TrimSpace(line[|UPDATE|..]), rest, NO_HUNKS);
    }
  }

  lemma {:induction false} SectionsArePrintable(lines: seq<string>, ops: seq<PatchOp>)
    requires AllOneLine(lines) && AllPrintable(ops)
    ensures var r := Sections(lines, ops); r.Parsed? ==> r.value != [] && AllPrintable(r.value)
    decreases |lines|
  {
    if lines != [] && TrimSpace(lines[0]) != END && Section(lines).Parsed? {
      SectionIsPrintable(lines);
      SectionsArePrintable(Section(lines).value.1, ops + [Section(lines).value.0]);
    }
  }

  lemma {:induction false} AfterBeginIsSuffix(lines: seq<string>)
    requires AllOneLine(lines)
    ensures AfterBegin(lines).Parsed? ==> AllOneLine(AfterBegin(lines).value)
  {
    if lines != [] && TrimSpace(lines[0]) == "" {
      AfterBeginIsSuffix(lines[1..]);
    }
  }

  /** Whatever the parser accepts can be printed, and parsing that print gives it back. */
  lemma ParsePrintParse(patch: string)
    ensures Envelope(patch).Parsed? ==>
              AllPrintable(Envelope(patch).value) && Envelope(Print(Envelope(patch).value)) == Envelope(patch)
  {
    if Envelope(patch).Parsed? {
      SplitPieces(patch);
      AfterBeginIsSuffix(PatchLines(patch));
      SectionsArePrintable(AfterBegin(PatchLines(patch)).value, []);
      ParsePrinted(Envelope(patch).value);
    }
  }

  // ---------------------------------------------------------------------------
  // The parser
  // ---------------------------------------------------------------------------

  method ParsePatch(patch: string) returns (r: Parsed<seq<PatchOp>>)
    ensures r == Envelope(patch)
  {
    hide TrimSpace, Sections, Split;
    var lines := Split(patch);
    if lines[|lines| - 1] == "" {
      lines := lines[..|lines| - 1];
    }
    assert lines == PatchLines(patch);
    var i := 0;
    assert lines[0..] == lines;
    while i < |lines| && TrimSpace(lines[i]) == ""
      invariant i <= |lines|
      invariant AfterBegin(lines[i..]) == AfterBegin(lines)
    {
      i := i + 1;
    }
    if i >= |lines| || TrimSpace(lines[i]) != BEGIN {
      return Rejected(NoBegin);
    }
    r := ReadOperations(lines, i + 1);
  }

  method ReadOperations(lines: seq<string>, start: nat) returns (r: Parsed<seq<PatchOp>>)
    requires start <= |lines|
    ensures r == Sections(lines[start..], [])
  {
    hide Section, TrimSpace;
    var i := start;
    var ops: seq<PatchOp> := [];
    while i < |lines|
      invariant i <= |lines|
      invariant Sections(lines[i..], ops) == Sections(lines[start..], [])
    {
      assert lines[i..][0] == lines[i];
      if TrimSpace(lines[i]) == END {
        if |ops| == 0 {
          return Rejected(NoOperations);
        }
        return Parsed(ops);
      }
      var section := ReadOperation(lines, i);
      if section.Rejected? {
        return Rejected(section.error);
      }
      i := section.value.1;
      ops := ops + [section.value.0];
    }
    return Rejected(NoEnd);
  }

  /** One file section starting at line `start`, and the line after it. */
  method ReadOperation(lines: seq<string>, start: nat) returns (r: Parsed<(PatchOp, nat)>)
    requires start < |lines|
    ensures match Section(lines[start..])
            case Rejected(e) => r == Rejected(e)
            case Parsed((op, rest)) => r.Parsed? && r.value.0 == op && start < r.value.1 <= |lines| && lines[r.value.1..] == rest
  {
    hide TrimSpace, HunksFrom, BodyLength, PlusLength, AddContent;
    var line := lines[start];
    assert lines[start..][0] == line && lines[start..][1..] == lines[start + 1..];
    if ADD <= line {
      var path := TrimSpace(line[|ADD|..]);
      var body, bad := ReadAddBody(lines, start + 1);
      var i := start + 1 + |body|;
      assert lines[i..] == lines[start + 1..][|body|..];
      if bad {
        return Rejected(BadLine(lines[i]));
      }
      return Parsed((Add(path, AddContent(body)), i));
    } else if DELETE <= line {
      return Parsed((Delete(TrimSpace(line[|DELETE|..])), start + 1));
    } else if UPDATE <= line {
      var path := TrimSpace(line[|UPDATE|..]);
      var parsed := ParseHunks(lines, start + 1, path);
      if parsed.Rejected? {
        return Rejected(parsed.error);
      }
      return Parsed((Update(path, parsed.value.0), parsed.value.1));
    } else {
      return Rejected(BadLine(line));
    }
  }

  /** The body of an Add File section from line `start` on, up to its first bad line. */
  method ReadAddBody(lines: seq<string>, start: nat) returns (body: seq<string>, bad: bool)
    requires start <= |lines|
    ensures var rest := lines[start..]; var n := BodyLength(rest); var good := PlusLength(rest[..n]);
            |body| == good && bad == (good < n) && body == Stripped(rest[..good])
  {
    body, bad := [], false;
    var i := start;
    ghost var rest := lines[start..];
    while i < |lines| && !IsMarker(lines[i])
      invariant start <= i <= |lines| && |body| == i - start <= BodyLength(rest)
      invariant forall k | 0 <= k < |body| :: "+" <= rest[k] && body[k] == rest[k][1..]
    {
      if !("+" <= lines[i]) {
        bad := true;
        return;
      }
      body := body + [lines[i][1..]];
      i := i + 1;
    }
  }

  method ParseHunks(lines: seq<string>, start: nat, path: string) returns (r: Parsed<(seq<Hunk>, nat)>)
    requires start <= |lines|
    ensures match HunksFrom(path, lines[start..], NO_HUNKS)
            case Rejected(e) => r == Rejected(e)
            case Parsed((hunks, rest)) => r.Parsed? && r.value.0 == hunks && start <= r.value.1 <= |lines| && lines[r.value.1..] == rest
  {
    hide HunksFrom, IsMarker, HunkLine;
    var hunks: seq<Hunk> := [];
    var cur := Hunk([], []);
    var open := false;
    var i := start;
    while i < |lines| && !IsMarker(lines[i])
      invariant start <= i <= |lines|
      invariant HunksFrom(path, lines[i..], HunkState(hunks, cur, open)) == HunksFrom(path, lines[start..], NO_HUNKS)
    {
      var l := lines[i];
      assert lines[i..] == [l] + lines[i + 1..];
      ghost var st := HunkState(hunks, cur, open);
      var ok, closed, next := ReadHunkLine(l, hunks, cur, open);
      if !ok {
        HunksStop(path, l, lines[i + 1..], st);
        return Rejected(BadLine(l));
      }
      ReadLine(path, l, lines[i + 1..], st, HunkState(closed, next, true));
      hunks, cur, open := closed, next, true;
      i := i + 1;
    }
    HunksEnd(path, lines[i..], HunkState(hunks, cur, open));
    if open && (|cur.oldLines| > 0 || |cur.newLines| > 0) {
      hunks := hunks + [cur];
    }
    if |hunks| == 0 {
      return Rejected(NoHunks(path));
    }
    return Parsed((hunks, i));
  }

  /** One body line, added to the hunk being read. */
  method ReadHunkLine(l: string, hunks: seq<Hunk>, cur: Hunk, open: bool) returns (ok: bool, closed: seq<Hunk>, next: Hunk)
    ensures HunkLine(HunkState(hunks, cur, open), l) == if ok then Parsed(HunkState(closed, next, true)) else Rejected(BadLine(l))
  {
    ok, closed, next := true, hunks, cur;
    if "@@" <= l {
      if open && (|cur.oldLines| > 0 || |cur.newLines| > 0) {
        closed := hunks + [cur];
      }
      next := Hunk([], []);
    } else if " " <= l {
      next := Hunk(cur.oldLines + [l[1..]], cur.newLines + [l[1..]]);
    } else if "-" <= l {
      next := Hunk(cur.oldLines + [l[1..]], cur.newLines);
    } else if "+" <= l {
      next := Hunk(cur.oldLines, cur.newLines + [l[1..]]);
    } else if l == "" {
      next := Hunk(cur.oldLines + [""], cur.newLines + [""]);
    } else {
      ok := false;
    }
  }
}
