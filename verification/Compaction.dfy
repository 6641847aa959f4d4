/** Sessions that hold a transcript, and folding its older part into a digest: in place when
    it grows, or in rounds when the session moves to a smaller context window. */
module Compaction {
  import opened Lines
  import opened Transcript
  import opened Wrappers
  import Utf8

  const DEFAULT_KEEP := 3
  const DIGEST_PREFIX := "[Earlier conversation summarized to save context]\n\n"
  const MAX_ROUNDS := 8

  // ---------------------------------------------------------------------------
  // Splitting off a recent part
  // ---------------------------------------------------------------------------

  function Users(ms: seq<Message>): nat {
    if ms == [] then 0 else (if ms[0].role == User then 1 else 0) + Users(ms[1..])
  }

  function Min(a: nat, b: nat): nat {
    if a < b then a else b
  }

  /** The recent part starts with a user message and holds the last `keep` of them, or all of
      them when there are fewer; without any, everything is recent. */
  ghost predicate RecentSplit(ms: seq<Message>, keep: nat, older: seq<Message>, recent: seq<Message>) {
    && ms == older + recent
    && Users(recent) == Min(keep, Users(ms))
    && (Users(ms) == 0 ==> older == [])
    && (Users(ms) > 0 && keep > 0 ==> recent != [] && (recent[0].role == User))
  }

  lemma {:induction false} UsersConcat(a: seq<Message>, b: seq<Message>)
    ensures Users(a + b) == Users(a) + Users(b)
  {
    if a == [] {
      assert a + b == b;
    } else {
      assert (a + b)[0] == a[0] && (a + b)[1..] == a[1..] + b;
      UsersConcat(a[1..], b);
    }
  }

  lemma UsersFrom(ms: seq<Message>, i: nat)
    requires i < |ms|
    ensures Users(ms[i..]) == (if ms[i].role == User then 1 else 0) + Users(ms[i + 1..])
  {
    assert ms[i..][0] == ms[i] && ms[i..][1..] == ms[i + 1..];
  }

  lemma UsersSplit(ms: seq<Message>, i: nat)
    requires i <= |ms|
    ensures Users(ms) == Users(ms[..i]) + Users(ms[i..])
  {
    assert ms == ms[..i] + ms[i..];
    UsersConcat(ms[..i], ms[i..]);
  }

  method SafeSplit(ms: seq<Message>, keepRecentTurns: int) returns (older: seq<Message>, recent: seq<Message>)
    ensures RecentSplit(ms, if keepRecentTurns <= 0 then 3 else keepRecentTurns, older, recent)
  {
    if |ms| == 0 {
      return [], [];
    }
    var split := RecentStart(ms, if keepRecentTurns <= 0 then DEFAULT_KEEP else keepRecentTurns);
    ghost var found := split;
    split := ClampToUserBoundary(ms, split);
    UsersSplit(ms, found);
    UsersSplit(ms, split);
    assert ms == ms[..split] + ms[split..];
    if split <= 0 {
      return [], ms;
    }
    return ms[..split], ms[split..];
  }

  /** Walks back to where the last `keep` user turns begin. */
  method RecentStart(ms: seq<Message>, keep: nat) returns (split: nat)
    requires keep > 0
    ensures split <= |ms| && Users(ms[split..]) == Min(keep, Users(ms))
    ensures Users(ms) > 0 ==> split < |ms| && ms[split].role == User
  {
    split := |ms|;
    var turns, i := 0, |ms|;
    assert ms[|ms|..] == [];
    while i > 0
      invariant 0 <= i <= split <= |ms| && turns < keep
      invariant turns == Users(ms[i..]) == Users(ms[split..])
      invariant turns > 0 ==> split < |ms| && ms[split].role == User
    {
      i := i - 1;
      UsersFrom(ms, i);
      if ms[i].role == User {
        turns := turns + 1;
        split := i;
        if turns >= keep {
          UsersSplit(ms, i);
          return;
        }
      }
    }
    assert ms[0..] == ms;
  }

  /** The nearest user message at or before idx, or the start. */
  method ClampToUserBoundary(ms: seq<Message>, idx: nat) returns (r: nat)
    requires ms != []
    ensures r < |ms| && (r == 0 || ms[r].role == User)
    ensures forall k | r < k <= idx && k < |ms| :: ms[k].role != User
    ensures r <= idx && (Users(ms) == 0 ==> r == 0)
  {
    r := if idx >= |ms| then |ms| - 1 else idx;
    while r > 0 && ms[r].role != User
      invariant 0 <= r < |ms| && r <= idx
      invariant forall k | r < k <= idx && k < |ms| :: ms[k].role != User
    {
      r := r - 1;
    }
    if ms[r].role == User {
      UsersSplit(ms, r);
      UsersFrom(ms, r);
    }
  }

  // ---------------------------------------------------------------------------
  // Sessions
  // ---------------------------------------------------------------------------

  function ArgumentTokens(calls: seq<NativeCall>): nat {
    if calls == [] then 0 else Utf8.ByteLength(calls[0].arguments) / 4 + ArgumentTokens(calls[1..])
  }

  /** A quarter of the bytes of a transcript, message by message and call by call. */
  function EstimateTokens(ms: seq<Message>): nat {
    if ms == [] then 0 else Utf8.ByteLength(ms[0].content) / 4 + ArgumentTokens(ms[0].toolCalls) + EstimateTokens(ms[1..])
  }

  /** What goes to the model: the transcript, and the output budget it is asked to keep to
      instead of the configured one, or 0. */
  datatype Request = Request(messages: seq<Message>, maxTokens: nat)

  /** What requests and compactions change of a session. */
  datatype Memory = Memory(transcript: seq<Message>, tokens: nat, suppressed: bool)

  /** A transcript and its running size, with a log of the requests made on it. */
  class ModelSession {
    var transcript: seq<Message>
    var tokenCount: nat
    var promptTokens: nat
    var maxContextLength: int
    var compressSuppressed: bool
    var lastMigrationWindow: int
    var requests: seq<Request>

    constructor (transcript: seq<Message>, tokenCount: nat, promptTokens: nat, maxContextLength: int)
      ensures this.transcript == transcript && this.tokenCount == tokenCount && this.promptTokens == promptTokens
      ensures this.maxContextLength == maxContextLength && !compressSuppressed && lastMigrationWindow == 0 && requests == []
    {
      this.transcript, this.tokenCount, this.promptTokens := transcript, tokenCount, promptTokens;
      this.maxContextLength, compressSuppressed, lastMigrationWindow, requests := maxContextLength, false, 0, [];
    }

    function State(): Memory
      reads this
    {
      Memory(transcript, tokenCount, compressSuppressed)
    }

    method AppendToolResults(results: seq<Message>)
      modifies this`transcript
      ensures transcript == old(transcript) + results
    {
      transcript := transcript + results;
    }

    /** Overwrites the text of the most recent assistant message, and nothing else. */
    method FoldLastAssistantContent(content: string)
      modifies this`transcript
      ensures forall last: nat | LastAssistant(old(transcript), last) ::
                transcript == old(transcript)[last := old(transcript)[last].(content := content)]
      ensures (forall k | 0 <= k < |old(transcript)| :: old(transcript)[k].role != Assistant) ==> transcript == old(transcript)
    {
      var i := |transcript|;
      while i > 0
        invariant 0 <= i <= |transcript| && transcript == old(transcript)
        invariant forall k | i <= k < |transcript| :: transcript[k].role != Assistant
      {
        i := i - 1;
        if transcript[i].role == Assistant {
          transcript := transcript[i := transcript[i].(content := content)];
          return;
        }
      }
    }

    method ApplyCompressedTranscript(newTranscript: seq<Message>)
      modifies this`transcript, this`tokenCount, this`compressSuppressed
      ensures transcript == newTranscript && compressSuppressed
      ensures tokenCount == EstimateTokens(newTranscript) + promptTokens
    {
      transcript := newTranscript;
      tokenCount := EstimateTokens(newTranscript) + promptTokens;
      compressSuppressed := true;
    }

    /** Compaction is due from 80% of the window on, and then again only once the size has
        fallen to half of it. */
    method NeedsCompression() returns (due: bool)
      modifies this`compressSuppressed
      ensures compressSuppressed == Suppressed(old(compressSuppressed), tokenCount, maxContextLength)
      ensures due == Due(old(compressSuppressed), tokenCount, maxContextLength)
    {
      if maxContextLength <= 0 {
        return false;
      }
      var high, low := maxContextLength * 4 / 5, maxContextLength / 2;
      if compressSuppressed && tokenCount <= low {
        compressSuppressed := false;
      }
      if compressSuppressed {
        return false;
      }
      due := tokenCount >= high;
    }
  }

  /** A compaction holds off the next until the size has been down to half the window. */
  predicate Suppressed(before: bool, tokens: nat, window: int) {
    before && (window <= 0 || tokens > window / 2)
  }

  predicate Due(suppressed: bool, tokens: nat, window: int) {
    window > 0 && !Suppressed(suppressed, tokens, window) && tokens >= window * 4 / 5
  }

  ghost predicate LastAssistant(ms: seq<Message>, last: nat) {
    && last < |ms| && ms[last].role == Assistant
    && forall k | last < k < |ms| :: ms[k].role != Assistant
  }

  function DigestMessage(digest: string): Message {
    UserMessage(DIGEST_PREFIX + digest)
  }

  predicate IsDigest(m: Message) {
    m.role == User && DIGEST_PREFIX <= m.content
  }

  /** What a summarizing backend answers: a text, or a failure. Blank text is a failure too. */
  type Answer = Option<string>

  /** The digest of some older messages, given the backend's answer; there is none of nothing. */
  method SummarizeOlder(older: seq<Message>, answer: Answer) returns (digest: Option<string>)
    ensures digest == if older != [] && Usable(answer) then Some(TrimSpace(answer.value)) else None
  {
    if |older| == 0 {
      return None;
    }
    if answer.None? {
      return None;
    }
    digest := Some(TrimSpace(answer.value));
    if digest.value == "" {
      return None;
    }
  }

  predicate Usable(answer: Answer) {
    answer.Some? && TrimSpace(answer.value) != ""
  }

  /** A digest in place of what came before a message that is no tool answer. */
  lemma DigestKeepsBalance(folded: seq<Message>, rest: seq<Message>, digest: string)
    requires Balanced(folded + rest) && rest != [] && rest[0].role != Tool
    ensures Balanced([DigestMessage(digest)] + rest)
  {
    CutIsBalanced(folded, rest);
    PlainStaysSettled([DigestMessage(digest)]);
    ScanConcat(SETTLED, [DigestMessage(digest)], rest);
  }

  /** Compaction in place, given what the backend would answer: when it is due, there is an
      older part and it can be summarized, the transcript becomes a digest followed by the
      last three user turns word for word, and otherwise it stays. Balance is kept. */
  method CompactIfNeeded(sess: ModelSession, answer: Answer)
    modifies sess`transcript, sess`tokenCount, sess`compressSuppressed
    ensures Compacts(old(sess.State()), sess.maxContextLength, sess.promptTokens, answer, sess.State())
    ensures Balanced(old(sess.transcript)) ==> Balanced(sess.transcript)
  {
    var due := sess.NeedsCompression();
    if !due {
      return;
    }
    var older, recent := SafeSplit(sess.transcript, DEFAULT_KEEP);
    if |older| == 0 {
      return;
    }
    var digest := SummarizeOlder(older, answer);
    if digest.None? {
      return;
    }
    if Balanced(sess.transcript) {
      DigestKeepsBalance(older, recent, digest.value);
    }
    sess.ApplyCompressedTranscript([DigestMessage(digest.value)] + recent);
  }

  /** A session before and after. */
  ghost predicate Compacts(before: Memory, window: int, promptTokens: nat, answer: Answer, after: Memory) {
    var armed := before.(suppressed := Suppressed(before.suppressed, before.tokens, window));
    if Due(before.suppressed, before.tokens, window) && Usable(answer) then
      exists older, recent | RecentSplit(before.transcript, DEFAULT_KEEP, older, recent) ::
        after == if older != [] then Summarized(answer, recent, promptTokens) else armed
    else after == armed
  }

  function Summarized(answer: Answer, recent: seq<Message>, promptTokens: nat): Memory
    requires answer.Some?
  {
    var ms := [DigestMessage(TrimSpace(answer.value))] + recent;
    Memory(ms, EstimateTokens(ms) + promptTokens, true)
  }

  // ---------------------------------------------------------------------------
  // Compaction, said in other words
  // ---------------------------------------------------------------------------

  ghost function UserPlaces(ms: seq<Message>, k: nat): set<nat> {
    set i: nat | k <= i < |ms| && ms[i].role == User
  }

  lemma {:induction false} UsersAreCounted(ms: seq<Message>, k: nat)
    requires k <= |ms|
    ensures Users(ms[k..]) == |UserPlaces(ms, k)|
    decreases |ms| - k
  {
    if k == |ms| {
      assert UserPlaces(ms, k) == {};
    } else {
      UsersFrom(ms, k);
      UsersAreCounted(ms, k + 1);
      var here: set<nat> := if ms[k].role == User then {k} else {};
      assert UserPlaces(ms, k) == here + UserPlaces(ms, k + 1);
    }
  }

  /** The third last user message, the first one when there are no three, or 0 without any. */
  ghost predicate KeptFrom(ms: seq<Message>, k: nat) {
    if UserPlaces(ms, 0) == {} then k == 0
    else k < |ms| && ms[k].role == User && (|UserPlaces(ms, k)| == 3 || (|UserPlaces(ms, k)| < 3 && UserPlaces(ms, k) == UserPlaces(ms, 0)))
  }

  lemma FewerUsersLater(ms: seq<Message>, i: nat, j: nat)
    requires i < j <= |ms| && ms[i].role == User
    ensures Users(ms[j..]) < Users(ms[i..])
  {
    UsersFrom(ms, i);
    UsersSplit(ms[i + 1..], j - i - 1);
    assert ms[i + 1..][j - i - 1..] == ms[j..];
  }

  lemma SplitsAt(ms: seq<Message>, k: nat, older: seq<Message>, recent: seq<Message>)
    requires KeptFrom(ms, k) && RecentSplit(ms, DEFAULT_KEEP, older, recent)
    ensures older == ms[..k] && recent == ms[k..]
  {
    var j := |older|;
    assert older == ms[..j] && recent == ms[j..] && ms[0..] == ms;
    UsersAreCounted(ms, 0);
    if Users(ms) > 0 {
      UsersAreCounted(ms, k);
      UsersSplit(ms, k);
      if j < k {
        FewerUsersLater(ms, j, k);
      } else if k < j {
        FewerUsersLater(ms, k, j);
      }
    }
  }

  /** Compaction is due from four fifths of the window on, and after one only once the size has
      been down to half of it. */
  predicate IsDue(before: Memory, window: int) {
    window > 0 && before.tokens >= window * 4 / 5 && (!before.suppressed || before.tokens <= window / 2)
  }

  /** A compaction leaves a digest and the last three user turns as they were; where there is
      nothing older, no summary, or no need, nothing changes but that it may be due again. */
  lemma CompactsExactly(before: Memory, window: int, promptTokens: nat, answer: Answer, after: Memory, k: nat)
    requires Compacts(before, window, promptTokens, answer, after) && KeptFrom(before.transcript, k)
    ensures IsDue(before, window) && k > 0 && answer.Some? && TrimSpace(answer.value) != "" ==>
              && after.transcript == [Message(User, DIGEST_PREFIX + TrimSpace(answer.value), [], "")] + before.transcript[k..]
              && after.tokens == EstimateTokens(after.transcript) + promptTokens && after.suppressed
    ensures !(IsDue(before, window) && k > 0 && answer.Some? && TrimSpace(answer.value) != "") ==>
              && after.transcript == before.transcript && after.tokens == before.tokens
              && (after.suppressed <==> before.suppressed && (window <= 0 || before.tokens > window / 2))
  {
    hide RecentSplit, KeptFrom, TrimSpace, EstimateTokens, DIGEST_PREFIX;
    forall older, recent | RecentSplit(before.transcript, DEFAULT_KEEP, older, recent)
      ensures k <= |before.transcript| && older == before.transcript[..k] && recent == before.transcript[k..]
    {
      KeptWithin(before.transcript, k);
      SplitsAt(before.transcript, k, older, recent);
    }
  }

  lemma KeptWithin(ms: seq<Message>, k: nat)
    requires KeptFrom(ms, k)
    ensures k <= |ms|
  {
  }

  /** The size of a message: a quarter of its text, and of the arguments of each of its calls. */
  lemma SizeOfMessage(m: Message, c: NativeCall, more: seq<NativeCall>)
    ensures EstimateTokens([m.(toolCalls := [])]) == Utf8.ByteLength(m.content) / 4
    ensures EstimateTokens([m.(toolCalls := [c] + more)]) ==
            EstimateTokens([m.(toolCalls := more)]) + Utf8.ByteLength(c.arguments) / 4
  {
    assert ([c] + more)[1..] == more;
  }

  // ---------------------------------------------------------------------------
  // Moving to a smaller window
  // ---------------------------------------------------------------------------

  predicate AllDigests(ms: seq<Message>) {
    ms != [] && forall i | 0 <= i < |ms| :: IsDigest(ms[i])
  }

  /** As many messages from the front as fit the budget, and at least one. */
  ghost predicate Fits(ms: seq<Message>, budget: nat, n: nat) {
    && 0 < n <= |ms|
    && (n == 1 || EstimateTokens(ms[..n]) <= budget)
    && (n == |ms| || EstimateTokens(ms[..n + 1]) > budget)
  }

  /** The chunk is what fits, one message more when that is digests only, and the tool answers
      that follow. */
  ghost predicate Chunk(ms: seq<Message>, budget: nat, chunk: seq<Message>, rest: seq<Message>) {
    exists n: nat, m: nat | Fits(ms, budget, n) && n <= m <= |chunk| ::
      && m == (if n < |ms| && AllDigests(ms[..n]) then n + 1 else n)
      && AllTools(chunk[m..])
      && (rest == [] || rest[0].role != Tool)
  }

  lemma ChunkFacts(ms: seq<Message>, budget: nat, chunk: seq<Message>, rest: seq<Message>)
    requires Chunk(ms, budget, chunk, rest)
    ensures rest == [] || rest[0].role != Tool
  {
  }

  lemma {:induction false} EstimateConcat(a: seq<Message>, b: seq<Message>)
    ensures EstimateTokens(a + b) == EstimateTokens(a) + EstimateTokens(b)
  {
    if a == [] {
      assert a + b == b;
    } else {
      assert (a + b)[0] == a[0] && (a + b)[1..] == a[1..] + b;
      EstimateConcat(a[1..], b);
    }
  }

  method FitCount(ms: seq<Message>, budget: nat) returns (cut: nat)
    requires ms != []
    ensures Fits(ms, budget, cut)
  {
    cut := |ms|;
    var total := 0;
    for i := 0 to |ms|
      invariant cut == |ms| && total == EstimateTokens(ms[..i])
      invariant i <= 1 || total <= budget
    {
      assert ms[..i + 1] == ms[..i] + ms[i..i + 1];
      EstimateConcat(ms[..i], ms[i..i + 1]);
      var size := EstimateTokens(ms[i..i + 1]);
      if i > 0 && total + size > budget {
        cut := i;
        return;
      }
      total := total + size;
    }
    assert ms[..|ms|] == ms;
  }

  method FirstChunk(ms: seq<Message>, budget: nat) returns (chunk: seq<Message>, rest: seq<Message>)
    ensures ms == chunk + rest
    ensures ms != [] ==> chunk != [] && Chunk(ms, budget, chunk, rest)
    ensures |chunk| == 1 && rest != [] ==> !IsDigest(chunk[0])
  {
    if |ms| == 0 {
      return [], [];
    }
    var fit := FitCount(ms, budget);
    var cut := fit;
    if cut < |ms| && AllDigests(ms[..cut]) {
      cut := cut + 1;
    }
    ghost var guarded := cut;
    while cut < |ms| && ms[cut].role == Tool
      invariant guarded <= cut <= |ms|
      invariant forall k | guarded <= k < cut :: ms[k].role == Tool
    {
      cut := cut + 1;
    }
    chunk, rest := ms[..cut], ms[cut..];
    assert ms == chunk + rest;
    assert AllTools(chunk[guarded..]);
  }

  /** The index of the last user message. */
  ghost predicate LastUser(ms: seq<Message>, last: nat) {
    last < |ms| && ms[last].role == User && Users(ms[last + 1..]) == 0
  }

  /** What rounds of folding may leave: the original, or one digest and a proper suffix of the
      original that still holds everything from its last user message on. */
  ghost predicate Folded(original: seq<Message>, now: seq<Message>) {
    now == original || exists k: nat, last: nat, digest | LastUser(original, last) && 0 < k <= last ::
      now == [DigestMessage(digest)] + original[k..]
  }

  datatype Migration = NothingToDo | Fitting | Cancelled | TooLarge

  lemma LastUserWithin(ms: seq<Message>, i: nat)
    requires i <= |ms| && Users(ms[i..]) > 0
    ensures exists last: nat :: LastUser(ms, last) && i <= last
    decreases |ms| - i
  {
    UsersFrom(ms, i);
    if Users(ms[i + 1..]) > 0 {
      LastUserWithin(ms, i + 1);
    } else {
      assert LastUser(ms, i);
    }
  }

  lemma LastUserIsLast(ms: seq<Message>, last: nat, i: nat)
    requires LastUser(ms, last) && i <= |ms| && Users(ms[i..]) > 0
    ensures i <= last
  {
    if i > last {
      var tail := ms[last + 1..];
      assert tail[i - last - 1..] == ms[i..];
      UsersSplit(tail, i - last - 1);
    }
  }

  /** One more round: everything before position c folded into a new digest. */
  lemma FoldAgain(original: seq<Message>, now: seq<Message>, c: nat, digest: string)
    requires Folded(original, now) && 0 < c <= |now| && Users(now[c..]) > 0
    ensures Folded(original, [DigestMessage(digest)] + now[c..])
  {
    if now == original {
      LastUserWithin(original, c);
    } else {
      var k: nat, last: nat, d :| LastUser(original, last) && 0 < k <= last && now == [DigestMessage(d)] + original[k..];
      FoldDigestAgain(original, last, k, d, c, digest);
    }
  }

  lemma FoldDigestAgain(original: seq<Message>, last: nat, k: nat, d: string, c: nat, digest: string)
    requires LastUser(original, last) && 0 < k <= last && 0 < c <= 1 + |original| - k
    requires Users(([DigestMessage(d)] + original[k..])[c..]) > 0
    ensures Folded(original, [DigestMessage(digest)] + ([DigestMessage(d)] + original[k..])[c..])
  {
    hide Users;
    SuffixOfSuffix(original, k, d, c);
    LastUserIsLast(original, last, k + c - 1);
  }

  lemma SuffixOfSuffix(original: seq<Message>, k: nat, digest: string, c: nat)
    requires k <= |original| && 1 <= c <= 1 + |original| - k
    ensures ([DigestMessage(digest)] + original[k..])[c..] == original[k + c - 1..]
  {
  }

  lemma SplitFacts(ms: seq<Message>, keep: nat, older: seq<Message>, recent: seq<Message>)
    requires RecentSplit(ms, keep, older, recent) && keep > 0 && older != []
    ensures recent != [] && recent[0].role == User && Users(recent) > 0
  {
  }

  /** The session at the start of a round. */
  datatype Snap = Snap(ms: seq<Message>, tokens: nat, keep: nat)

  /** What the rounds depend on: the size to reach, the size of a chunk and of the system
      prompt, what the backend answers in each round, and where the turn is cancelled. */
  datatype Plan = Plan(fit: int, budget: nat, prompt: nat, answers: nat -> Answer, cancelled: nat -> bool)

  function Fewer(keep: nat): nat {
    if keep > 1 then keep - 1 else keep
  }

  /** A round without an older part keeps fewer turns next. */
  ghost predicate Tightens(s: Snap, t: Snap) {
    RecentSplit(s.ms, s.keep, [], s.ms) && s.keep > 1 && t == s.(keep := s.keep - 1)
  }

  /** A round that puts a digest in place of the oldest chunk of the older part. */
  ghost predicate Folds(p: Plan, answer: Answer, s: Snap, t: Snap) {
    && Usable(answer) && t.keep == Fewer(s.keep) && t.tokens == EstimateTokens(t.ms) + p.prompt
    && exists older, recent, chunk, rest | RecentSplit(s.ms, s.keep, older, recent) && Chunk(older, p.budget, chunk, rest) ::
         older == chunk + rest && chunk != [] && t.ms == [DigestMessage(TrimSpace(answer.value))] + (rest + recent)
  }

  /** A round that got nowhere and cannot keep fewer turns. */
  predicate Stalls(s: Snap, t: Snap) {
    s.keep <= 1 && t.tokens >= s.tokens
  }

  /** Rounds one after the other: none cancelled or needless, none after a stalled one. */
  ghost predicate Rounds(p: Plan, trail: seq<Snap>) {
    && 1 <= |trail| <= 9
    && (forall k: nat | k < |trail| - 1 ::
          !p.cancelled(k) && trail[k].tokens > p.fit && (Tightens(trail[k], trail[k + 1]) || Folds(p, p.answers(k), trail[k], trail[k + 1])))
    && (forall k: nat | k < |trail| - 2 :: !Stalls(trail[k], trail[k + 1]))
  }

  /** The first round keeps three user turns, the second two, and every later one the last. */
  lemma {:induction false} FewerTurnsAreKept(p: Plan, trail: seq<Snap>, k: nat)
    requires Rounds(p, trail) && trail[0].keep == 3 && k < |trail|
    ensures trail[k].keep == if k == 0 then 3 else if k == 1 then 2 else 1
  {
    hide RecentSplit, Chunk, EstimateTokens;
    if k > 0 {
      FewerTurnsAreKept(p, trail, k - 1);
      assert Tightens(trail[k - 1], trail[k]) || Folds(p, p.answers(k - 1), trail[k - 1], trail[k]);
    }
  }

  /** Why no round follows: they are used up, the last one stalled, there is nothing older to
      fold, or what there is cannot be summarized. */
  ghost predicate Exhausted(p: Plan, trail: seq<Snap>)
    requires trail != []
  {
    var n := |trail| - 1;
    var last := trail[n];
    || n == 8
    || (n > 0 && Stalls(trail[n - 1], last))
    || (!p.cancelled(n) && last.keep <= 1 && RecentSplit(last.ms, last.keep, [], last.ms))
    || (!p.cancelled(n) && !Usable(p.answers(n)) && exists older, recent | RecentSplit(last.ms, last.keep, older, recent) :: older != [])
  }

  ghost predicate Ends(p: Plan, trail: seq<Snap>, outcome: Migration)
    requires trail != []
  {
    var n := |trail| - 1;
    match outcome
    case NothingToDo => n == 0
    case Cancelled => n < 8 && p.cancelled(n)
    case Fitting => trail[n].tokens <= p.fit && (n == 8 || !p.cancelled(n))
    case TooLarge => trail[n].tokens > p.fit && Exhausted(p, trail)
  }

  function SnapOf(sess: ModelSession, keep: nat): Snap
    reads sess
  {
    Snap(sess.transcript, sess.tokenCount, keep)
  }

  /** Folds older context, oldest chunks first, until the session fits the target window, in
      at most eight rounds and so with at most eight summaries. The transcript is only ever
      folded and stays balanced, and success means that it fits. */
  method MigrateToContextWindow(sess: ModelSession, target: int, answers: nat -> Answer, cancelled: nat -> bool)
    returns (outcome: Migration, summaries: nat, ghost trail: seq<Snap>)
    modifies sess`transcript, sess`tokenCount, sess`compressSuppressed, sess`lastMigrationWindow
    ensures sess.lastMigrationWindow == target
    ensures Folded(old(sess.transcript), sess.transcript)
    ensures Balanced(old(sess.transcript)) ==> Balanced(sess.transcript)
    ensures summaries <= 8
    ensures outcome == NothingToDo <==>
              target <= 0 || (0 < old(sess.lastMigrationWindow) <= target) || old(sess.tokenCount) <= target * 4 / 5
    ensures var plan := Plan(target * 4 / 5, if target / 2 >= 1 then target / 2 else 1, sess.promptTokens, answers, cancelled);
            Rounds(plan, trail) && Ends(plan, trail, outcome)
    ensures trail[0] == old(SnapOf(sess, 3)) && SnapOf(sess, trail[|trail| - 1].keep) == trail[|trail| - 1]
  {
    hide Folded, Rounds, Ends, Balanced;
    summaries, trail := 0, [SnapOf(sess, DEFAULT_KEEP)];
    var chunkBudget := if target / 2 >= 1 then target / 2 else 1;
    FirstRound(Plan(target * 4 / 5, chunkBudget, sess.promptTokens, answers, cancelled), trail[0]);
    var prev := sess.lastMigrationWindow;
    sess.lastMigrationWindow := target;
    if target <= 0 {
      return NothingToDo, 0, trail;
    }
    if prev > 0 && target >= prev {
      return NothingToDo, 0, trail;
    }
    var fit := target * 4 / 5;
    if sess.tokenCount <= fit {
      return NothingToDo, 0, trail;
    }
    outcome, summaries, trail := FoldUntilFits(sess, Plan(fit, chunkBudget, sess.promptTokens, answers, cancelled));
  }

  method FoldUntilFits(sess: ModelSession, p: Plan) returns (outcome: Migration, summaries: nat, ghost trail: seq<Snap>)
    requires p.prompt == sess.promptTokens
    modifies sess`transcript, sess`tokenCount, sess`compressSuppressed
    ensures Folded(old(sess.transcript), sess.transcript)
    ensures Balanced(old(sess.transcript)) ==> Balanced(sess.transcript)
    ensures summaries <= 8 && outcome != NothingToDo
    ensures Rounds(p, trail) && Ends(p, trail, outcome)
    ensures trail[0] == old(SnapOf(sess, 3)) && SnapOf(sess, trail[|trail| - 1].keep) == trail[|trail| - 1]
  {
    hide Folded, RecentSplit, Chunk, Balanced, Tightens, Folds, EstimateTokens, Rounds, Due, Suppressed;
    summaries, trail := 0, [SnapOf(sess, DEFAULT_KEEP)];
    FirstRound(p, trail[0]);
    var keep := DEFAULT_KEEP;
    var round := 0;
    while round < MAX_ROUNDS
      invariant sess.promptTokens == p.prompt
      invariant 0 <= summaries <= round <= MAX_ROUNDS && 1 <= keep
      invariant Folded(old(sess.transcript), sess.transcript)
      invariant Balanced(old(sess.transcript)) ==> Balanced(sess.transcript)
      invariant Rounds(p, trail) && |trail| == round + 1 && trail[0] == old(SnapOf(sess, DEFAULT_KEEP))
      invariant trail[round] == SnapOf(sess, keep)
      invariant round > 0 ==> !Stalls(trail[round - 1], trail[round])
    {
      if p.cancelled(round) {
        return Cancelled, summaries, trail;
      }
      if sess.tokenCount <= p.fit {
        return Fitting, summaries, trail;
      }
      var before := sess.tokenCount;
      var asked, moved := FoldRound(sess, keep, p, p.answers(round), old(sess.transcript));
      if asked {
        summaries := summaries + 1;
      }
      if !moved {
        return TooLarge, summaries, trail;
      }
      NextRound(p, trail, SnapOf(sess, Fewer(keep)));
      round := round + 1;
      trail := trail + [SnapOf(sess, Fewer(keep))];
      if sess.tokenCount >= before && keep <= 1 {
        break;
      }
      keep := Fewer(keep);
    }
    return if sess.tokenCount <= p.fit then Fitting else TooLarge, summaries, trail;
  }

  lemma FirstRound(p: Plan, s: Snap)
    ensures Rounds(p, [s]) && Ends(p, [s], NothingToDo) && Folded(s.ms, s.ms)
  {
  }

  /** One round: with no older part fewer turns are kept from now on, until only one is; else
      the oldest chunk of it is folded, if it can be summarized. */
  method FoldRound(sess: ModelSession, keep: nat, p: Plan, answer: Answer, ghost original: seq<Message>)
    returns (asked: bool, moved: bool)
    requires keep > 0 && p.prompt == sess.promptTokens && Folded(original, sess.transcript)
    modifies sess`transcript, sess`tokenCount, sess`compressSuppressed
    ensures Folded(original, sess.transcript)
    ensures Balanced(old(sess.transcript)) ==> Balanced(sess.transcript)
    ensures moved ==> Tightens(old(SnapOf(sess, keep)), SnapOf(sess, Fewer(keep)))
                      || Folds(p, answer, old(SnapOf(sess, keep)), SnapOf(sess, Fewer(keep)))
    ensures !moved ==>
              && SnapOf(sess, keep) == old(SnapOf(sess, keep))
              && ((keep <= 1 && RecentSplit(sess.transcript, keep, [], sess.transcript))
                  || (!Usable(answer) && exists older, recent | RecentSplit(sess.transcript, keep, older, recent) :: older != []))
  {
    hide Folded, Chunk, Balanced;
    var older, recent := SafeSplit(sess.transcript, keep);
    if |older| == 0 {
      NothingOlder(sess.transcript, keep, older, recent);
      return false, keep > 1;
    }
    moved := FoldOldest(sess, keep, older, recent, p, answer, original);
    asked := true;
  }

  lemma NothingOlder(ms: seq<Message>, keep: nat, older: seq<Message>, recent: seq<Message>)
    requires RecentSplit(ms, keep, older, recent) && older == []
    ensures RecentSplit(ms, keep, [], ms)
  {
    assert recent == ms;
  }

  lemma NextRound(p: Plan, trail: seq<Snap>, next: Snap)
    requires Rounds(p, trail) && |trail| <= 8
    requires var n := |trail| - 1;
             && !p.cancelled(n) && trail[n].tokens > p.fit
             && (Tightens(trail[n], next) || Folds(p, p.answers(n), trail[n], next))
             && (n > 0 ==> !Stalls(trail[n - 1], trail[n]))
    ensures Rounds(p, trail + [next])
  {
    hide Tightens, Folds, Stalls;
  }

  /** One round: the oldest chunk of the older part becomes a digest, if it can be summarized. */
  method FoldOldest(sess: ModelSession, keep: nat, older: seq<Message>, recent: seq<Message>,
                    p: Plan, answer: Answer, ghost original: seq<Message>)
    returns (folded: bool)
    requires p.prompt == sess.promptTokens
    requires RecentSplit(sess.transcript, keep, older, recent) && keep > 0 && older != []
    requires Folded(original, sess.transcript)
    modifies sess`transcript, sess`tokenCount, sess`compressSuppressed
    ensures Folded(original, sess.transcript)
    ensures Balanced(old(sess.transcript)) ==> Balanced(sess.transcript)
    ensures folded <==> Usable(answer)
    ensures folded ==> Folds(p, answer, old(SnapOf(sess, keep)), SnapOf(sess, Fewer(keep)))
    ensures !folded ==> sess.transcript == old(sess.transcript) && sess.tokenCount == old(sess.tokenCount)
  {
    hide Folded, Chunk, Balanced, RecentSplit;
    var chunk, rest := FirstChunk(older, p.budget);
    var digest := SummarizeOlder(chunk, answer);
    if digest.None? {
      return false;
    }
    FoldFront(original, sess.transcript, keep, older, recent, p.budget, chunk, rest, digest.value);
    sess.ApplyCompressedTranscript([DigestMessage(digest.value)] + (rest + recent));
    folded := true;
  }

  /** The digest of a first chunk in its place. */
  lemma FoldFront(original: seq<Message>, now: seq<Message>, keep: nat, older: seq<Message>, recent: seq<Message>,
                  budget: nat, chunk: seq<Message>, rest: seq<Message>, digest: string)
    requires RecentSplit(now, keep, older, recent) && keep > 0 && older != [] && Folded(original, now)
    requires older == chunk + rest && chunk != [] && Chunk(older, budget, chunk, rest)
    ensures Folded(original, [DigestMessage(digest)] + (rest + recent))
    ensures Balanced(now) ==> Balanced([DigestMessage(digest)] + (rest + recent))
  {
    SplitFacts(now, keep, older, recent);
    ChunkFacts(older, budget, chunk, rest);
    hide Folded, Chunk, Balanced, Users, DigestMessage;
    var kept := rest + recent;
    assert now == chunk + kept && now[|chunk|..] == kept;
    UsersConcat(rest, recent);
    FoldAgain(original, now, |chunk|, digest);
    if Balanced(now) {
      assert kept[0] == if rest != [] then rest[0] else recent[0];
      DigestKeepsBalance(chunk, kept, digest);
    }
  }
}
