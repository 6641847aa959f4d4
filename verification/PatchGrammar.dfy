/** What a patch envelope says, read off its lines as written: which lines of a hunk are old and
    which are new, where one hunk or file section ends, and what is skipped. The parser accepts
    exactly the envelopes of this form, and reads them so. */
module PatchGrammar {
  import opened Lines
  import opened PatchApply
  import opened PatchFormat

  // ---------------------------------------------------------------------------
  // Hunks
  // ---------------------------------------------------------------------------

  /** A line of a hunk: marked as kept, removed or added, or empty, which counts as kept. */
  predicate WellMarked(l: string) {
    l == "" || l[0] == ' ' || l[0] == '-' || l[0] == '+'
  }

  predicate Opens(l: string) {
    |l| >= 2 && l[0] == '@' && l[1] == '@'
  }

  /** The texts of the lines that carry one of two marks, and of those without any. */
  function Texts(ls: seq<string>, one: char, other: char): seq<string> {
    if ls == [] then []
    else (if ls[0] == "" then [""] else if ls[0][0] == one || ls[0][0] == other then [ls[0][1..]] else []) + Texts(ls[1..], one, other)
  }

  function HunkOf(ls: seq<string>): Hunk {
    Hunk(Texts(ls, ' ', '-'), Texts(ls, ' ', '+'))
  }

  /** The stretches between the lines that open a hunk. */
  function Stretches(body: seq<string>): (r: seq<seq<string>>)
    ensures r != []
  {
    if body == [] then [[]]
    else
      var rest := Stretches(body[1..]);
      if Opens(body[0]) then [[]] + rest else [[body[0]] + rest[0]] + rest[1..]
  }

  /** The hunks of these stretches; a stretch without lines is none. */
  function HunksOf(stretches: seq<seq<string>>): seq<Hunk> {
    if stretches == [] then []
    else (if stretches[0] == [] then [] else [HunkOf(stretches[0])]) + HunksOf(stretches[1..])
  }

  function BodyHunks(body: seq<string>): seq<Hunk> {
    HunksOf(Stretches(body))
  }

  predicate HunkBody(body: seq<string>) {
    forall l <- body :: WellMarked(l) || Opens(l)
  }

  predicate NoMarker(body: seq<string>) {
    forall l <- body :: !("*** " <= l)
  }

  lemma {:induction false} TextsConcat(a: seq<string>, b: seq<string>, one: char, other: char)
    ensures Texts(a + b, one, other) == Texts(a, one, other) + Texts(b, one, other)
  {
    if a == [] {
      assert a + b == b;
    } else {
      assert (a + b)[0] == a[0] && (a + b)[1..] == a[1..] + b;
      TextsConcat(a[1..], b, one, other);
    }
  }

  lemma TextOf(l: string, one: char, other: char)
    ensures Texts([l], one, other) == if l == "" then [""] else if l[0] == one || l[0] == other then [l[1..]] else []
  {
    assert [l][1..] == [];
  }

  /** Every line of a stretch is old or new. */
  lemma {:induction false} NoLineIsBlank(ls: seq<string>)
    requires forall l <- ls :: WellMarked(l)
    ensures IsBlank(HunkOf(ls)) <==> ls == []
  {
    if ls != [] {
      assert ls[0] in ls;
    }
  }

  /** The state after the lines of a stretch. */
  ghost predicate Holds(st: HunkState, hunks: seq<Hunk>, ls: seq<string>) {
    && st.hunks == hunks && st.cur == HunkOf(ls) && (ls != [] ==> st.open) && forall l <- ls :: WellMarked(l)
  }

  lemma FlushedIs(st: HunkState, hunks: seq<Hunk>, ls: seq<string>)
    requires Holds(st, hunks, ls)
    ensures st.Flushed() == if ls == [] then hunks else hunks + [HunkOf(ls)]
  {
    NoLineIsBlank(ls);
  }

  lemma OneLineOn(st: HunkState, hunks: seq<Hunk>, ls: seq<string>, l: string)
    requires Holds(st, hunks, ls) && WellMarked(l)
    ensures HunkLine(st, l).Parsed? && Holds(HunkLine(st, l).value, hunks, ls + [l])
  {
    TextsConcat(ls, [l], ' ', '-');
    TextsConcat(ls, [l], ' ', '+');
    TextOf(l, ' ', '-');
    TextOf(l, ' ', '+');
    hide Texts;
    assert l != "" ==> l[..1] == [l[0]];
  }

  lemma OpeningLine(st: HunkState, hunks: seq<Hunk>, ls: seq<string>, l: string)
    requires Holds(st, hunks, ls) && Opens(l)
    ensures HunkLine(st, l) == Parsed(HunkState(if ls == [] then hunks else hunks + [HunkOf(ls)], Hunk([], []), true))
  {
    FlushedIs(st, hunks, ls);
    hide Texts;
    assert l[..2] == "@@";
  }

  /** The hunks of a body, its first lines already read. */
  function HunksOn(hunks: seq<Hunk>, ls: seq<string>, body: seq<string>): seq<Hunk> {
    var more := Stretches(body);
    hunks + HunksOf([ls + more[0]] + more[1..])
  }

  lemma HunksOfFirst(first: seq<string>, more: seq<seq<string>>)
    ensures HunksOf([first] + more) == (if first == [] then [] else [HunkOf(first)]) + HunksOf(more)
  {
    assert ([first] + more)[1..] == more;
  }

  lemma WithNothingBefore(stretches: seq<seq<string>>)
    requires stretches != []
    ensures [[] + stretches[0]] + stretches[1..] == stretches
  {
    assert [] + stretches[0] == stretches[0];
  }

  lemma LaterLines(body: seq<string>)
    requires body != [] && HunkBody(body) && NoMarker(body)
    ensures !IsMarker(body[0]) && HunkBody(body[1..]) && NoMarker(body[1..])
  {
    assert body[0] in body;
    assert forall l <- body[1..] :: l in body;
  }

  lemma HunksOnIs(hunks: seq<Hunk>, ls: seq<string>, body: seq<string>)
    ensures var all := Stretches(body);
            HunksOn(hunks, ls, body) == (if ls + all[0] == [] then hunks else hunks + [HunkOf(ls + all[0])]) + HunksOf(all[1..])
  {
    hide HunkOf, HunksOf, Stretches;
    var all := Stretches(body);
    HunksOfFirst(ls + all[0], all[1..]);
    var first, more := HunkOf(ls + all[0]), HunksOf(all[1..]);
    assert hunks + ([first] + more) == hunks + [first] + more;
    assert hunks + ([] + more) == hunks + more;
  }

  lemma HunksOnOpening(hunks: seq<Hunk>, ls: seq<string>, body: seq<string>)
    requires body != [] && Opens(body[0])
    ensures HunksOn(hunks, ls, body) == HunksOn(if ls == [] then hunks else hunks + [HunkOf(ls)], [], body[1..])
  {
    StretchesOpen(body);
    HunksOnIs(hunks, ls, body);
    FromNothing(if ls == [] then hunks else hunks + [HunkOf(ls)], body[1..]);
    hide HunkOf, HunksOf, Stretches, HunksOn, Opens;
    assert ls + [] == ls;
  }

  lemma FromNothing(hunks: seq<Hunk>, body: seq<string>)
    ensures HunksOn(hunks, [], body) == hunks + HunksOf(Stretches(body))
  {
    hide HunkOf, HunksOf, Stretches;
    WithNothingBefore(Stretches(body));
  }

  lemma StretchesOpen(body: seq<string>)
    requires body != [] && Opens(body[0])
    ensures Stretches(body)[0] == [] && Stretches(body)[1..] == Stretches(body[1..])
  {
    hide Opens;
  }

  lemma HunksOnLine(hunks: seq<Hunk>, ls: seq<string>, body: seq<string>)
    requires body != [] && !Opens(body[0])
    ensures HunksOn(hunks, ls, body) == HunksOn(hunks, ls + [body[0]], body[1..])
  {
    hide HunkOf;
    var more := Stretches(body[1..]);
    assert Stretches(body)[0] == [body[0]] + more[0] && Stretches(body)[1..] == more[1..];
    assert ls + ([body[0]] + more[0]) == ls + [body[0]] + more[0];
  }

  lemma {:induction false} ReadBodyLines(path: string, body: seq<string>, rest: seq<string>, st: HunkState, hunks: seq<Hunk>, ls: seq<string>)
    requires Holds(st, hunks, ls) && HunkBody(body) && NoMarker(body) && (rest == [] || IsMarker(rest[0]))
    ensures var read := HunksOn(hunks, ls, body);
            HunksFrom(path, body + rest, st) == if read == [] then Rejected(NoHunks(path)) else Parsed((read, rest))
    decreases |body|
  {
    hide HunksFrom, HunkLine, HunkOf, WellMarked, Opens, Holds, HunksOn, IsMarker;
    if body == [] {
      assert body + rest == rest;
      HunksEnd(path, rest, st);
      FlushedIs(st, hunks, ls);
      NothingMore(hunks, ls);
    } else {
      var l, later := body[0], body[1..];
      assert l in body && body + rest == [l] + (later + rest);
      LaterLines(body);
      if Opens(l) {
        OpeningLine(st, hunks, ls, l);
        HunksOnOpening(hunks, ls, body);
        var closed := if ls == [] then hunks else hunks + [HunkOf(ls)];
        ReadLine(path, l, later + rest, st, HunkState(closed, Hunk([], []), true));
        NothingHeld(closed);
        ReadBodyLines(path, later, rest, HunkState(closed, Hunk([], []), true), closed, []);
      } else {
        OneLineOn(st, hunks, ls, l);
        HunksOnLine(hunks, ls, body);
        ReadLine(path, l, later + rest, st, HunkLine(st, l).value);
        ReadBodyLines(path, later, rest, HunkLine(st, l).value, hunks, ls + [l]);
      }
    }
  }

  lemma NothingMore(hunks: seq<Hunk>, ls: seq<string>)
    ensures HunksOn(hunks, ls, []) == if ls == [] then hunks else hunks + [HunkOf(ls)]
  {
    hide HunkOf;
    var more := Stretches([]);
    assert more[0] == [] && more[1..] == [] && ls + more[0] == ls;
    HunksOfFirst(ls, more[1..]);
    assert hunks + [] == hunks;
  }

  lemma NothingHeld(hunks: seq<Hunk>)
    ensures Holds(HunkState(hunks, Hunk([], []), true), hunks, [])
    ensures Holds(NO_HUNKS, [], [])
  {
  }

  /** The body of a file section up to the next marker reads as its hunks; one without any is
      refused. */
  lemma BodyIsRead(path: string, body: seq<string>, rest: seq<string>)
    requires HunkBody(body) && NoMarker(body) && (rest == [] || IsMarker(rest[0]))
    ensures HunksFrom(path, body + rest, NO_HUNKS) == if BodyHunks(body) == [] then Rejected(NoHunks(path)) else Parsed((BodyHunks(body), rest))
  {
    hide HunksFrom, Holds, IsMarker;
    NothingHeld([]);
    ReadBodyLines(path, body, rest, NO_HUNKS, [], []);
    var all := Stretches(body);
    WithNothingBefore(all);
    assert [] + BodyHunks(body) == BodyHunks(body);
  }

  /** And a line of no such form is refused. */
  lemma {:induction false} BadLineIsRefused(path: string, body: seq<string>, bad: string, rest: seq<string>, st: HunkState)
    requires HunkBody(body) && NoMarker(body) && !WellMarked(bad) && !Opens(bad) && !("*** " <= bad)
    ensures HunksFrom(path, body + [bad] + rest, st) == Rejected(BadLine(bad))
    decreases |body|
  {
    hide HunksFrom;
    if body == [] {
      assert [] + [bad] + rest == [bad] + rest;
      assert bad != "" && (|bad| >= 2 ==> bad[..2] == [bad[0], bad[1]]);
      HunksStop(path, bad, rest, st);
    } else {
      var l, later := body[0], body[1..];
      assert l in body && body + [bad] + rest == [l] + (later + [bad] + rest);
      assert (l != "" ==> l[..1] == [l[0]]) && (Opens(l) ==> l[..2] == "@@");
      ReadLine(path, l, later + [bad] + rest, st, HunkLine(st, l).value);
      BadLineIsRefused(path, later, bad, rest, HunkLine(st, l).value);
    }
  }

  // ---------------------------------------------------------------------------
  // File sections
  // ---------------------------------------------------------------------------

  /** A file section as written, its path perhaps padded. */
  datatype Written = AddFile(path: string, body: seq<string>) | UpdateFile(path: string, body: seq<string>) | DeleteFile(path: string)

  function LinesOf(w: Written): seq<string> {
    match w
    case AddFile(path, body) => ["*** Add File: " + path] + body
    case UpdateFile(path, body) => ["*** Update File: " + path] + body
    case DeleteFile(path) => ["*** Delete File: " + path]
  }

  predicate AllAdded(body: seq<string>) {
    forall i | 0 <= i < |body| :: body[i] != "" && body[i][0] == '+'
  }

  /** The lines of a new file are all marked as added; an update has a hunk. */
  predicate WellWritten(w: Written) {
    match w
    case AddFile(_, body) => AllAdded(body)
    case UpdateFile(_, body) => HunkBody(body) && NoMarker(body) && BodyHunks(body) != []
    case DeleteFile(_) => true
  }

  /** The texts of added lines, each closed by a newline. */
  function AddedText(body: seq<string>): string
    requires AllAdded(body)
  {
    if body == [] then "" else body[0][1..] + "\n" + AddedText(body[1..])
  }

  function Says(w: Written): PatchOp
    requires WellWritten(w)
  {
    match w
    case AddFile(path, body) => Add(TrimSpace(path), AddedText(body))
    case UpdateFile(path, body) => Update(TrimSpace(path), BodyHunks(body))
    case DeleteFile(path) => Delete(TrimSpace(path))
  }

  /** A section ends where another begins; one that deletes a file ends at once. */
  predicate Bounded(w: Written, rest: seq<string>) {
    w.DeleteFile? || rest == [] || IsMarker(rest[0])
  }

  lemma {:induction false} AddedTextIs(body: seq<string>)
    requires AllAdded(body)
    ensures AddedText(body) == AddContent(Stripped(body))
  {
    if body != [] {
      assert Stripped(body) == [body[0][1..]] + Stripped(body[1..]);
      AddedTextIs(body[1..]);
      assert |body| == 1 ==> Stripped(body[1..]) == [] && Join(Stripped(body)) == body[0][1..];
    }
  }

  lemma AddedLines(body: seq<string>, rest: seq<string>)
    requires AllAdded(body) && (rest == [] || IsMarker(rest[0]))
    ensures BodyLength(body + rest) == |body| == PlusLength((body + rest)[..|body|])
    ensures (body + rest)[..|body|] == body && (body + rest)[|body|..] == rest
  {
    var text := body + rest;
    forall i | 0 <= i < |body| ensures "+" <= text[i] && !IsMarker(text[i]) {
      assert text[i] == body[i] && body[i][..1] == "+";
    }
  }

  lemma HeadLine(header: string, path: string, more: seq<string>)
    ensures var lines := [header + path] + more;
            lines[1..] == more && lines[0] == header + path && (header + path)[|header|..] == path
  {
  }

  lemma AddIsRead(path: string, body: seq<string>, rest: seq<string>)
    requires AllAdded(body) && (rest == [] || IsMarker(rest[0]))
    ensures Section([ADD + path] + (body + rest)) == Parsed((Add(TrimSpace(path), AddedText(body)), rest))
  {
    ReadHeader(ADD, path);
    HeadLine(ADD, path, body + rest);
    AddedLines(body, rest);
    AddedTextIs(body);
    hide BodyLength, PlusLength, Stripped, AddContent, AddedText, TrimSpace, HunksFrom, IsMarker;
  }

  lemma UpdateIsRead(path: string, body: seq<string>, rest: seq<string>)
    requires HunkBody(body) && NoMarker(body) && BodyHunks(body) != [] && (rest == [] || IsMarker(rest[0]))
    ensures Section([UPDATE + path] + (body + rest)) == Parsed((Update(TrimSpace(path), BodyHunks(body)), rest))
  {
    ReadHeader(UPDATE, path);
    HeadLine(UPDATE, path, body + rest);
    BodyIsRead(TrimSpace(path), body, rest);
    hide BodyHunks, TrimSpace, HunksFrom, IsMarker, HunkBody, NoMarker;
  }

  lemma DeleteIsRead(path: string, rest: seq<string>)
    ensures Section([DELETE + path] + rest) == Parsed((Delete(TrimSpace(path)), rest))
  {
    ReadHeader(DELETE, path);
    HeadLine(DELETE, path, rest);
    hide TrimSpace, HunksFrom, IsMarker;
  }

  lemma SectionIsRead(w: Written, rest: seq<string>)
    requires WellWritten(w) && Bounded(w, rest)
    ensures Section(LinesOf(w) + rest) == Parsed((Says(w), rest))
  {
    hide Section, AddedText, AllAdded, TrimSpace, IsMarker, BodyHunks, HunkBody, NoMarker;
    match w {
      case AddFile(path, body) =>
        AddIsRead(path, body, rest);
        assert LinesOf(w) + rest == [ADD + path] + (body + rest);
      case UpdateFile(path, body) =>
        UpdateIsRead(path, body, rest);
        assert LinesOf(w) + rest == [UPDATE + path] + (body + rest);
      case DeleteFile(path) =>
        DeleteIsRead(path, rest);
    }
  }

  /** What is read of an update are lines of a hunk body. */
  lemma {:induction false} HunksAreWritten(path: string, lines: seq<string>, st: HunkState)
    requires HunksFrom(path, lines, st).Parsed?
    ensures var n := BodyLength(lines);
            && HunkBody(lines[..n]) && NoMarker(lines[..n])
            && HunksFrom(path, lines, st).value.1 == lines[n..]
    decreases |lines|
  {
    if lines != [] && !IsMarker(lines[0]) {
      var l, n := lines[0], BodyLength(lines);
      HunksAreWritten(path, lines[1..], HunkLine(st, l).value);
      assert lines[..n] == [l] + lines[1..][..n - 1] && lines[n..] == lines[1..][n - 1..];
      LineIsWritten(st, l);
    }
  }

  lemma LineIsWritten(st: HunkState, l: string)
    requires HunkLine(st, l).Parsed?
    ensures WellMarked(l) || Opens(l)
  {
    assert "@@" <= l ==> l[0] == '@' && l[1] == '@';
  }

  lemma AddIsWritten(lines: seq<string>, path: string)
    requires lines != [] && lines[0] == ADD + path && Section(lines).Parsed?
    ensures var n := BodyLength(lines[1..]);
            AllAdded(lines[1..][..n]) && Section(lines).value.1 == lines[1..][n..]
  {
    hide TrimSpace, AddContent;
    ReadHeader(ADD, path);
    var n := BodyLength(lines[1..]);
    var body := lines[1..][..n];
    forall i | 0 <= i < n ensures body[i] != "" && body[i][0] == '+' {
      assert "+" <= body[i];
    }
  }

  lemma UpdateIsWritten(lines: seq<string>, path: string)
    requires lines != [] && lines[0] == UPDATE + path && Section(lines).Parsed?
    ensures var rest, n := lines[1..], BodyLength(lines[1..]);
            && HunkBody(rest[..n]) && NoMarker(rest[..n]) && BodyHunks(rest[..n]) != []
            && Section(lines).value.1 == rest[n..]
  {
    ReadHeader(UPDATE, path);
    var rest, n, p := lines[1..], BodyLength(lines[1..]), TrimSpace(path);
    assert lines[0][|UPDATE|..] == path;
    HunksAreWritten(p, rest, NO_HUNKS);
    assert rest == rest[..n] + rest[n..];
    BodyIsRead(p, rest[..n], rest[n..]);
    hide HunksFrom, TrimSpace, BodyHunks, HunkBody, NoMarker;
  }

  lemma FromPieces(lines: seq<string>, header: string, n: nat)
    requires lines != [] && header <= lines[0] && n <= |lines| - 1
    ensures lines[0] == header + lines[0][|header|..]
    ensures lines == [header + lines[0][|header|..]] + lines[1..]
    ensures lines == [header + lines[0][|header|..]] + lines[1..][..n] + lines[1..][n..]
  {
    assert lines == [lines[0]] + lines[1..] && lines[1..] == lines[1..][..n] + lines[1..][n..];
  }

  lemma NeedsHeader(lines: seq<string>)
    requires lines != [] && Section(lines).Parsed?
    ensures ADD <= lines[0] || DELETE <= lines[0] || UPDATE <= lines[0]
    ensures !(ADD <= lines[0]) && DELETE <= lines[0] ==> Section(lines).value.1 == lines[1..]
  {
    hide TrimSpace, HunksFrom, AddContent, BodyLength, PlusLength, ADD, DELETE, UPDATE;
  }

  ghost predicate WrittenAs(lines: seq<string>, w: Written, rest: seq<string>) {
    WellWritten(w) && Bounded(w, rest) && lines == LinesOf(w) + rest
  }

  /** A section that is read was written so. */
  lemma SectionIsWritten(lines: seq<string>)
    requires lines != [] && Section(lines).Parsed?
    ensures exists w :: WrittenAs(lines, w, Section(lines).value.1)
  {
    NeedsHeader(lines);
    hide Section, WrittenAs;
    if ADD <= lines[0] {
      AddWrittenAs(lines);
    } else if DELETE <= lines[0] {
      DeleteWrittenAs(lines);
    } else {
      UpdateWrittenAs(lines);
    }
  }

  lemma AddWrittenAs(lines: seq<string>)
    requires lines != [] && ADD <= lines[0] && Section(lines).Parsed?
    ensures exists w :: WrittenAs(lines, w, Section(lines).value.1)
  {
    hide Section, AllAdded, IsMarker;
    var rest, n := lines[1..], BodyLength(lines[1..]);
    FromPieces(lines, ADD, n);
    AddIsWritten(lines, lines[0][|ADD|..]);
    assert WrittenAs(lines, AddFile(lines[0][|ADD|..], rest[..n]), rest[n..]);
  }

  lemma DeleteWrittenAs(lines: seq<string>)
    requires lines != [] && DELETE <= lines[0] && Section(lines).Parsed? && Section(lines).value.1 == lines[1..]
    ensures exists w :: WrittenAs(lines, w, Section(lines).value.1)
  {
    hide Section;
    FromPieces(lines, DELETE, 0);
    assert WrittenAs(lines, DeleteFile(lines[0][|DELETE|..]), lines[1..]);
  }

  lemma UpdateWrittenAs(lines: seq<string>)
    requires lines != [] && UPDATE <= lines[0] && Section(lines).Parsed?
    ensures exists w :: WrittenAs(lines, w, Section(lines).value.1)
  {
    hide Section, HunkBody, NoMarker, BodyHunks, IsMarker;
    var rest, n := lines[1..], BodyLength(lines[1..]);
    FromPieces(lines, UPDATE, n);
    UpdateIsWritten(lines, lines[0][|UPDATE|..]);
    assert WrittenAs(lines, UpdateFile(lines[0][|UPDATE|..], rest[..n]), rest[n..]);
  }

  // ---------------------------------------------------------------------------
  // Envelopes
  // ---------------------------------------------------------------------------

  function AllLines(ws: seq<Written>): seq<string> {
    if ws == [] then [] else LinesOf(ws[0]) + AllLines(ws[1..])
  }

  function AllSay(ws: seq<Written>): seq<PatchOp>
    requires AllWellWritten(ws)
  {
    if ws == [] then [] else [Says(ws[0])] + AllSay(ws[1..])
  }

  predicate AllWellWritten(ws: seq<Written>) {
    forall k | 0 <= k < |ws| :: WellWritten(ws[k])
  }

  /** The end marker may be padded; after a section with a body it must not be indented, as that
      body would take it for one of its lines. */
  predicate Ends(ws: seq<Written>, end: string) {
    TrimSpace(end) == "*** End Patch" && (ws == [] || ws[|ws| - 1].DeleteFile? || "*** " <= end)
  }

  lemma {:induction false} SectionsAreRead(ws: seq<Written>, end: string, after: seq<string>, before: seq<PatchOp>)
    requires AllWellWritten(ws) && Ends(ws, end) && before + AllSay(ws) != []
    ensures Sections(AllLines(ws) + [end] + after, before) == Parsed(before + AllSay(ws))
    decreases |ws|
  {
    hide Sections, WellWritten, Says, TrimSpace, IsMarker;
    var lines := AllLines(ws) + [end] + after;
    if ws == [] {
      assert lines == [end] + after && before + AllSay(ws) == before;
      EndIsRead(end, after, before);
    } else {
      var rest := AllLines(ws[1..]) + [end] + after;
      assert lines == LinesOf(ws[0]) + rest;
      NextIsBounded(ws, end, after);
      OneSectionIsRead(ws[0], rest, before);
      assert before + AllSay(ws) == before + [Says(ws[0])] + AllSay(ws[1..]);
      SectionsAreRead(ws[1..], end, after, before + [Says(ws[0])]);
    }
  }

  lemma EndIsRead(end: string, after: seq<string>, before: seq<PatchOp>)
    requires TrimSpace(end) == "*** End Patch"
    ensures Sections([end] + after, before) == if before == [] then Rejected(NoOperations) else Parsed(before)
  {
    hide TrimSpace;
  }

  lemma OneSectionIsRead(w: Written, rest: seq<string>, before: seq<PatchOp>)
    requires WellWritten(w) && Bounded(w, rest)
    ensures Sections(LinesOf(w) + rest, before) == Sections(rest, before + [Says(w)])
  {
    SectionIsRead(w, rest);
    HeadIsNoEnd(w);
    hide Section, TrimSpace, Says, WellWritten, IsMarker;
    assert (LinesOf(w) + rest)[0] == LinesOf(w)[0];
  }

  lemma HeadIsNoEnd(w: Written)
    ensures TrimSpace(LinesOf(w)[0]) != END && IsMarker(LinesOf(w)[0])
  {
    match w
    case AddFile(path, _) => ReadHeader(ADD, path);
    case UpdateFile(path, _) => ReadHeader(UPDATE, path);
    case DeleteFile(path) => ReadHeader(DELETE, path);
  }

  lemma NextIsBounded(ws: seq<Written>, end: string, after: seq<string>)
    requires ws != [] && Ends(ws, end)
    ensures Bounded(ws[0], AllLines(ws[1..]) + [end] + after) && Ends(ws[1..], end)
  {
    hide TrimSpace;
    if |ws| > 1 {
      HeadIsNoEnd(ws[1]);
      assert (AllLines(ws[1..]) + [end] + after)[0] == LinesOf(ws[1])[0];
    } else {
      assert AllLines(ws[1..]) + [end] + after == [end] + after;
    }
  }

  /** A patch is these lines, its last newline optional after a line that is not empty. */
  predicate IsTextOf(patch: string, lines: seq<string>) {
    && lines != [] && AllOneLine(lines)
    && (patch == Join(lines) + "\n" || (patch == Join(lines) && lines[|lines| - 1] != ""))
  }

  lemma LinesOfText(patch: string, lines: seq<string>)
    requires IsTextOf(patch, lines)
    ensures PatchLines(patch) == lines
  {
    if patch == Join(lines) + "\n" {
      SplitTerminatedLines(lines);
    } else {
      SplitJoin(lines);
    }
  }

  /** Blank lines, the marker that begins a patch, its sections, and the marker that ends it;
      what comes after is not read. */
  ghost predicate IsEnvelope(patch: string, ws: seq<Written>) {
    && ws != [] && AllWellWritten(ws)
    && exists blank, begin, end, after: seq<string> | Frames(blank, begin, ws, end) ::
         IsTextOf(patch, blank + [begin] + (AllLines(ws) + [end] + after))
  }

  predicate Frames(blank: seq<string>, begin: string, ws: seq<Written>, end: string) {
    (forall l <- blank :: TrimSpace(l) == "") && TrimSpace(begin) == "*** Begin Patch" && Ends(ws, end)
  }

  lemma {:induction false} BlankIsSkipped(blank: seq<string>, begin: string, rest: seq<string>)
    requires (forall l <- blank :: TrimSpace(l) == "") && TrimSpace(begin) == "*** Begin Patch"
    ensures AfterBegin(blank + [begin] + rest) == Parsed(rest)
  {
    hide TrimSpace;
    var lines := blank + [begin] + rest;
    if blank == [] {
      assert lines == [begin] + rest && lines[1..] == rest;
    } else {
      assert blank[0] in blank && lines[0] == blank[0] && lines[1..] == blank[1..] + [begin] + rest;
      BlankIsSkipped(blank[1..], begin, rest);
    }
  }

  /** An envelope is read as its sections say, one after the other. */
  lemma EnvelopeIsRead(patch: string, ws: seq<Written>)
    requires IsEnvelope(patch, ws)
    ensures Envelope(patch) == Parsed(AllSay(ws))
  {
    hide IsTextOf, WellWritten, TrimSpace, PatchLines, AfterBegin, Sections, Ends, Says;
    var blank, begin, end, after: seq<string> :|
      Frames(blank, begin, ws, end) && IsTextOf(patch, blank + [begin] + (AllLines(ws) + [end] + after));
    LinesOfText(patch, blank + [begin] + (AllLines(ws) + [end] + after));
    BlankIsSkipped(blank, begin, AllLines(ws) + [end] + after);
    SectionsAreRead(ws, end, after, []);
    assert [] + AllSay(ws) == AllSay(ws);
  }

  // ---------------------------------------------------------------------------
  // And nothing else is read
  // ---------------------------------------------------------------------------

  lemma {:induction false} SectionsAreWritten(lines: seq<string>, before: seq<PatchOp>)
    requires Sections(lines, before).Parsed?
    ensures exists ws, end, after: seq<string> | AllWellWritten(ws) && Ends(ws, end) ::
              before + AllSay(ws) != [] && lines == AllLines(ws) + [end] + after
    decreases |lines|
  {
    hide WellWritten, Says, TrimSpace, Section, LinesOf;
    if TrimSpace(lines[0]) == END {
      assert AllWellWritten([]) && Ends([], lines[0]) && before + AllSay([]) == before;
      assert lines == AllLines([]) + [lines[0]] + lines[1..];
    } else {
      SectionIsWritten(lines);
      var rest := Section(lines).value.1;
      var w :| WrittenAs(lines, w, rest);
      SectionIsRead(w, rest);
      SectionsAreWritten(rest, before + [Section(lines).value.0]);
      var ws, end, after: seq<string> :| AllWellWritten(ws) && Ends(ws, end) && rest == AllLines(ws) + [end] + after;
      OneMoreSection(w, ws, end, after, rest);
      assert before + AllSay([w] + ws) != [];
      assert lines == AllLines([w] + ws) + [end] + after;
    }
  }

  lemma OneMoreSection(w: Written, ws: seq<Written>, end: string, after: seq<string>, rest: seq<string>)
    requires WellWritten(w) && Bounded(w, rest) && AllWellWritten(ws) && Ends(ws, end) && rest == AllLines(ws) + [end] + after
    ensures AllWellWritten([w] + ws) && Ends([w] + ws, end)
    ensures AllSay([w] + ws) == [Says(w)] + AllSay(ws) && AllLines([w] + ws) == LinesOf(w) + AllLines(ws)
  {
    hide WellWritten, Says, TrimSpace, LinesOf;
    assert ([w] + ws)[1..] == ws;
    assert ws == [] ==> rest == [end] + after && rest[0] == end;
  }

  lemma {:induction false} BeginIsWritten(lines: seq<string>)
    requires AfterBegin(lines).Parsed?
    ensures exists blank, begin | (forall l <- blank :: TrimSpace(l) == "") && TrimSpace(begin) == "*** Begin Patch" ::
              lines == blank + [begin] + AfterBegin(lines).value
    decreases |lines|
  {
    hide TrimSpace;
    var rest := AfterBegin(lines).value;
    if TrimSpace(lines[0]) == "" {
      BeginIsWritten(lines[1..]);
      var blank, begin :| (forall l <- blank :: TrimSpace(l) == "") && TrimSpace(begin) == "*** Begin Patch" &&
                          lines[1..] == blank + [begin] + rest;
      var padded := [lines[0]] + blank;
      assert lines == padded + [begin] + rest;
      assert forall l <- padded :: TrimSpace(l) == "";
    } else {
      assert lines == [] + [lines[0]] + rest;
    }
  }

  /** The parser accepts exactly the envelopes. */
  lemma OnlyEnvelopesAreRead(patch: string)
    ensures Envelope(patch).Parsed? <==> exists ws :: IsEnvelope(patch, ws)
  {
    hide Envelope, IsEnvelope;
    if exists ws :: IsEnvelope(patch, ws) {
      var ws :| IsEnvelope(patch, ws);
      EnvelopeIsRead(patch, ws);
    }
    if Envelope(patch).Parsed? {
      EnvelopeIsWritten(patch);
    }
  }

  lemma EnvelopeIsWritten(patch: string)
    requires Envelope(patch).Parsed?
    ensures exists ws :: IsEnvelope(patch, ws)
  {
    var lines := PatchLines(patch);
    TextOfLines(patch);
    BeginIsWritten(lines);
    hide TrimSpace, AfterBegin, Sections, WellWritten, PatchLines, IsTextOf, Says, AllLines;
    var rest := AfterBegin(lines).value;
    var blank, begin :| (forall l <- blank :: TrimSpace(l) == "") && TrimSpace(begin) == "*** Begin Patch" && lines == blank + [begin] + rest;
    SectionsAreWritten(rest, []);
    var ws, end, after: seq<string> :| AllWellWritten(ws) && Ends(ws, end) && [] + AllSay(ws) != [] && rest == AllLines(ws) + [end] + after;
    assert Frames(blank, begin, ws, end);
    assert IsEnvelope(patch, ws);
  }

  lemma TextOfLines(patch: string)
    ensures PatchLines(patch) != [] ==> IsTextOf(patch, PatchLines(patch))
  {
    var ls := Split(patch);
    SplitPieces(patch);
    JoinSplit(patch);
    hide Split, Join;
    if |ls| > 1 && ls[|ls| - 1] == "" {
      var front := ls[..|ls| - 1];
      assert ls == front + [""];
      JoinTerminated(front);
      assert forall i | 0 <= i < |front| :: front[i] == ls[i];
      hide OneLine;
      assert AllOneLine(front);
    }
  }
}
