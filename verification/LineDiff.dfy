/** The line differ: a table of longest-common-subsequence lengths filled from the
    bottom right, and a trace-back that reads an edit script off it. */
module LineDiff {
  import opened Lines

  datatype Kind = Equal | Delete | Insert

  datatype Op = Op(kind: Kind, text: string)

  /** Above this many table cells the differ replaces the whole block. */
  const MAX_CELLS := 4_000_000

  /** The old file as a script spells it: what is kept and what is deleted. */
  function OldSide(ops: seq<Op>): seq<string> {
    if ops == [] then []
    else (if ops[0].kind != Insert then [ops[0].text] else []) + OldSide(ops[1..])
  }

  /** The new file as a script spells it: what is kept and what is inserted. */
  function NewSide(ops: seq<Op>): seq<string> {
    if ops == [] then []
    else (if ops[0].kind != Delete then [ops[0].text] else []) + NewSide(ops[1..])
  }

  function Kept(ops: seq<Op>): nat {
    if ops == [] then 0
    else (if ops[0].kind == Equal then 1 else 0) + Kept(ops[1..])
  }

  /** How many lines a script deletes or inserts. */
  function Cost(ops: seq<Op>): nat {
    if ops == [] then 0
    else (if ops[0].kind == Equal then 0 else 1) + Cost(ops[1..])
  }

  ghost predicate IsScript(ops: seq<Op>, a: seq<string>, b: seq<string>) {
    OldSide(ops) == a && NewSide(ops) == b
  }

  /** A common subsequence, given by where its lines sit in each file. */
  ghost predicate Common(a: seq<string>, b: seq<string>, f: seq<nat>, g: seq<nat>) {
    && |f| == |g|
    && Increasing(f) && Increasing(g)
    && (forall k | 0 <= k < |f| :: f[k] < |a| && g[k] < |b| && a[f[k]] == b[g[k]])
  }

  /** The recurrence the table satisfies: the value for a[i..] and b[j..]. */
  ghost function Lcs(a: seq<string>, b: seq<string>, i: nat, j: nat): nat
    requires i <= |a| && j <= |b|
    decreases |a| - i + |b| - j
  {
    if i == |a| || j == |b| then 0
    else if a[i] == b[j] then 1 + Lcs(a, b, i + 1, j + 1)
    else
      var down, right := Lcs(a, b, i + 1, j), Lcs(a, b, i, j + 1);
      if down >= right then down else right
  }

  /** Dropping one line of either file loses at most one and gains nothing. */
  lemma {:induction false} LcsStep(a: seq<string>, b: seq<string>, i: nat, j: nat)
    requires i <= |a| && j <= |b|
    ensures i < |a| ==> Lcs(a, b, i + 1, j) <= Lcs(a, b, i, j) <= 1 + Lcs(a, b, i + 1, j)
    ensures j < |b| ==> Lcs(a, b, i, j + 1) <= Lcs(a, b, i, j) <= 1 + Lcs(a, b, i, j + 1)
    decreases |a| - i + |b| - j
  {
    if i < |a| && j < |b| {
      LcsStep(a, b, i + 1, j + 1);
      LcsStep(a, b, i + 1, j);
      LcsStep(a, b, i, j + 1);
    }
  }

  lemma {:induction false} CommonBound(a: seq<string>, b: seq<string>, i: nat, j: nat, f: seq<nat>, g: seq<nat>)
    requires i <= |a| && j <= |b| && Common(a, b, f, g)
    requires |f| > 0 ==> i <= f[0] && j <= g[0]
    ensures |f| <= Lcs(a, b, i, j)
    decreases |a| - i + |b| - j
  {
    if |f| > 0 {
      if a[i] == b[j] {
        CommonBound(a, b, i + 1, j + 1, f[1..], g[1..]);
      } else if f[0] > i {
        CommonBound(a, b, i + 1, j, f, g);
      } else {
        CommonBound(a, b, i, j + 1, f, g);
      }
    }
  }

  lemma {:induction false} ScriptBound(ops: seq<Op>, a: seq<string>, b: seq<string>, i: nat, j: nat)
    requires i <= |a| && j <= |b|
    requires OldSide(ops) == a[i..] && NewSide(ops) == b[j..]
    ensures Kept(ops) <= Lcs(a, b, i, j)
  {
    if ops != [] {
      LcsStep(a, b, i, j);
      match ops[0].kind
      case Equal =>
        assert a[i] == a[i..][0] == ops[0].text == b[j..][0] == b[j];
        assert a[i + 1..] == a[i..][1..] && b[j + 1..] == b[j..][1..];
        ScriptBound(ops[1..], a, b, i + 1, j + 1);
      case Delete =>
        assert |a[i..]| > 0 && a[i + 1..] == a[i..][1..];
        ScriptBound(ops[1..], a, b, i + 1, j);
      case Insert =>
        assert |b[j..]| > 0 && b[j + 1..] == b[j..][1..];
        ScriptBound(ops[1..], a, b, i, j + 1);
    }
  }

  lemma {:induction false} CostByKept(ops: seq<Op>)
    ensures Cost(ops) + 2 * Kept(ops) == |OldSide(ops)| + |NewSide(ops)|
  {
    if ops != [] {
      CostByKept(ops[1..]);
    }
  }

  /** A script that keeps Lcs lines is a best one: it keeps a longest common
      subsequence, and no script between the two files changes fewer lines. */
  lemma KeepingLcsIsOptimal(ops: seq<Op>, a: seq<string>, b: seq<string>)
    requires IsScript(ops, a, b) && Kept(ops) == Lcs(a, b, 0, 0)
    ensures forall f, g | Common(a, b, f, g) :: |f| <= Kept(ops)
    ensures forall other | IsScript(other, a, b) :: Cost(ops) <= Cost(other)
  {
    forall f, g | Common(a, b, f, g) ensures |f| <= Kept(ops) {
      CommonBound(a, b, 0, 0, f, g);
    }
    CostByKept(ops);
    forall other | IsScript(other, a, b) ensures Cost(ops) <= Cost(other) {
      ScriptBound(other, a, b, 0, 0);
      CostByKept(other);
    }
  }

  lemma Grouped<T>(a: seq<T>, b: seq<T>, c: seq<T>)
    ensures a + b + c == a + (b + c)
  {
  }

  lemma {:induction false} OldAppend(xs: seq<Op>, ys: seq<Op>)
    ensures OldSide(xs + ys) == OldSide(xs) + OldSide(ys)
  {
    if xs == [] {
      assert xs + ys == ys;
    } else {
      assert (xs + ys)[0] == xs[0] && (xs + ys)[1..] == xs[1..] + ys;
      OldAppend(xs[1..], ys);
      Grouped([xs[0].text], OldSide(xs[1..]), OldSide(ys));
    }
  }

  lemma {:induction false} NewAppend(xs: seq<Op>, ys: seq<Op>)
    ensures NewSide(xs + ys) == NewSide(xs) + NewSide(ys)
  {
    if xs == [] {
      assert xs + ys == ys;
    } else {
      assert (xs + ys)[0] == xs[0] && (xs + ys)[1..] == xs[1..] + ys;
      NewAppend(xs[1..], ys);
      Grouped([xs[0].text], NewSide(xs[1..]), NewSide(ys));
    }
  }

  lemma {:induction false} KeptAppend(xs: seq<Op>, ys: seq<Op>)
    ensures Kept(xs + ys) == Kept(xs) + Kept(ys)
  {
    if xs == [] {
      assert xs + ys == ys;
    } else {
      assert (xs + ys)[0] == xs[0] && (xs + ys)[1..] == xs[1..] + ys;
      KeptAppend(xs[1..], ys);
    }
  }

  lemma SidesAppend(xs: seq<Op>, ys: seq<Op>)
    ensures OldSide(xs + ys) == OldSide(xs) + OldSide(ys)
    ensures NewSide(xs + ys) == NewSide(xs) + NewSide(ys)
    ensures Kept(xs + ys) == Kept(xs) + Kept(ys)
  {
    OldAppend(xs, ys);
    NewAppend(xs, ys);
    KeptAppend(xs, ys);
  }

  /** A script under construction: it spells the first i old and first j new lines. */
  ghost predicate Spells(ops: seq<Op>, a: seq<string>, i: nat, b: seq<string>, j: nat)
    requires i <= |a| && j <= |b|
  {
    OldSide(ops) == a[..i] && NewSide(ops) == b[..j]
  }

  lemma PushEqual(ops: seq<Op>, a: seq<string>, i: nat, b: seq<string>, j: nat)
    requires i < |a| && j < |b| && a[i] == b[j] && Spells(ops, a, i, b, j)
    ensures Spells(ops + [Op(Equal, a[i])], a, i + 1, b, j + 1)
    ensures Kept(ops + [Op(Equal, a[i])]) == Kept(ops) + 1
  {
    SidesAppend(ops, [Op(Equal, a[i])]);
  }

  lemma PushDelete(ops: seq<Op>, a: seq<string>, i: nat, b: seq<string>, j: nat)
    requires i < |a| && j <= |b| && Spells(ops, a, i, b, j)
    ensures Spells(ops + [Op(Delete, a[i])], a, i + 1, b, j)
    ensures Kept(ops + [Op(Delete, a[i])]) == Kept(ops)
  {
    SidesAppend(ops, [Op(Delete, a[i])]);
  }

  lemma PushInsert(ops: seq<Op>, a: seq<string>, i: nat, b: seq<string>, j: nat)
    requires i <= |a| && j < |b| && Spells(ops, a, i, b, j)
    ensures Spells(ops + [Op(Insert, b[j])], a, i, b, j + 1)
    ensures Kept(ops + [Op(Insert, b[j])]) == Kept(ops)
  {
    SidesAppend(ops, [Op(Insert, b[j])]);
  }

  function All(kind: Kind, ls: seq<string>): seq<Op> {
    seq(|ls|, i requires 0 <= i < |ls| => Op(kind, ls[i]))
  }

  /** One file replaced by the other as a whole. */
  function Replacement(a: seq<string>, b: seq<string>): seq<Op> {
    All(Delete, a) + All(Insert, b)
  }

  /** How a script reads, op by op: what is kept is in both files, what is deleted in the old one
      only, what is inserted in the new one only. */
  lemma ScriptReads(x: string, more: seq<Op>)
    ensures OldSide([Op(Equal, x)] + more) == [x] + OldSide(more) && NewSide([Op(Equal, x)] + more) == [x] + NewSide(more)
    ensures OldSide([Op(Delete, x)] + more) == [x] + OldSide(more) && NewSide([Op(Delete, x)] + more) == NewSide(more)
    ensures OldSide([Op(Insert, x)] + more) == OldSide(more) && NewSide([Op(Insert, x)] + more) == [x] + NewSide(more)
    ensures Kept([Op(Equal, x)] + more) == 1 + Kept(more) && Cost([Op(Equal, x)] + more) == Cost(more)
    ensures Kept([Op(Delete, x)] + more) == Kept([Op(Insert, x)] + more) == Kept(more)
    ensures Cost([Op(Delete, x)] + more) == Cost([Op(Insert, x)] + more) == 1 + Cost(more)
  {
    forall k: Kind ensures ([Op(k, x)] + more)[1..] == more {
    }
  }

  /** The differ. Both branches return a script from a to b; below the cutoff it keeps
      a longest common subsequence and so is the cheapest script there is. */
  method DiffLines(a: seq<string>, b: seq<string>) returns (ops: seq<Op>)
    ensures IsScript(ops, a, b)
    ensures |a| * |b| <= 4_000_000 ==>
              && (forall f, g | Common(a, b, f, g) :: |f| <= Kept(ops))
              && (forall other | IsScript(other, a, b) :: Cost(ops) <= Cost(other))
    ensures |a| * |b| > 4_000_000 ==> ops == Replacement(a, b) && Kept(ops) == 0
  {
    if |a| * |b| > MAX_CELLS {
      ops := ReplaceRest(a, b, 0, 0, []);
      assert a[0..] == a && b[0..] == b && [] + Replacement(a, b) == Replacement(a, b);
      return;
    }
    var lcs := FillTable(a, b);
    ops := TraceBack(a, b, lcs);
    KeepingLcsIsOptimal(ops, a, b);
  }

  /** Walks the table from the top left, keeping equal lines and otherwise stepping
      towards the larger entry. */
  method TraceBack(a: seq<string>, b: seq<string>, lcs: array2<nat>) returns (ops: seq<Op>)
    requires IsTable(a, b, lcs)
    ensures IsScript(ops, a, b)
    ensures Kept(ops) == Lcs(a, b, 0, 0)
  {
    ops := [];
    var i, j := 0, 0;
    while i < |a| && j < |b|
      invariant i <= |a| && j <= |b|
      invariant Spells(ops, a, i, b, j)
      invariant Kept(ops) + Lcs(a, b, i, j) == Lcs(a, b, 0, 0)
      decreases |a| - i + |b| - j
    {
      if a[i] == b[j] {
        PushEqual(ops, a, i, b, j);
        ops := ops + [Op(Equal, a[i])];
        i, j := i + 1, j + 1;
      } else if lcs[i + 1, j] >= lcs[i, j + 1] {
        PushDelete(ops, a, i, b, j);
        ops := ops + [Op(Delete, a[i])];
        i := i + 1;
      } else {
        PushInsert(ops, a, i, b, j);
        ops := ops + [Op(Insert, b[j])];
        j := j + 1;
      }
    }
    ops := ReplaceRest(a, b, i, j, ops);
  }

  /** Deletes what is left of the old file, then inserts what is left of the new one.
      From the start of both files this is the coarse fallback. */
  method ReplaceRest(a: seq<string>, b: seq<string>, i: nat, j: nat, prefix: seq<Op>) returns (ops: seq<Op>)
    requires i <= |a| && j <= |b|
    requires Spells(prefix, a, i, b, j)
    ensures IsScript(ops, a, b)
    ensures Kept(ops) == Kept(prefix) && ops == prefix + Replacement(a[i..], b[j..])
  {
    hide OldSide, NewSide, Kept;
    ops := prefix;
    for x := i to |a|
      invariant Spells(ops, a, x, b, j) && Kept(ops) == Kept(prefix)
      invariant ops == prefix + All(Delete, a[i..x])
    {
      PushDelete(ops, a, x, b, j);
      ops := ops + [Op(Delete, a[x])];
    }
    for y := j to |b|
      invariant Spells(ops, a, |a|, b, y) && Kept(ops) == Kept(prefix)
      invariant ops == prefix + All(Delete, a[i..]) + All(Insert, b[j..y])
    {
      PushInsert(ops, a, |a|, b, y);
      ops := ops + [Op(Insert, b[y])];
    }
  }

  ghost predicate IsTable(a: seq<string>, b: seq<string>, lcs: array2<nat>)
    reads lcs
  {
    && lcs.Length0 == |a| + 1 && lcs.Length1 == |b| + 1
    && forall i, j | 0 <= i <= |a| && 0 <= j <= |b| :: lcs[i, j] == Lcs(a, b, i, j)
  }

  method FillTable(a: seq<string>, b: seq<string>) returns (lcs: array2<nat>)
    ensures IsTable(a, b, lcs)
  {
    lcs := new nat[|a| + 1, |b| + 1]((_, _) => 0);
    for i := |a| downto 0
      invariant forall x, y | i <= x <= |a| && 0 <= y <= |b| :: lcs[x, y] == Lcs(a, b, x, y)
      invariant forall x | 0 <= x < i :: lcs[x, |b|] == 0
    {
      FillRow(a, b, lcs, i, i + 1);
    }
  }

  /** Row i holds the recurrence's values from column j on. */
  ghost predicate RowFilled(a: seq<string>, b: seq<string>, lcs: array2<nat>, i: nat, j: nat)
    requires i <= |a| && lcs.Length0 == |a| + 1 && lcs.Length1 == |b| + 1
    reads lcs
  {
    forall y | j <= y <= |b| :: lcs[i, y] == Lcs(a, b, i, y)
  }

  /** Fills row i from the row below it, right to left. */
  method FillRow(a: seq<string>, b: seq<string>, lcs: array2<nat>, i: nat, below: nat)
    requires i < |a| && below == i + 1 && lcs.Length0 == |a| + 1 && lcs.Length1 == |b| + 1
    requires RowFilled(a, b, lcs, below, 0)
    requires lcs[i, |b|] == 0
    modifies lcs
    ensures RowFilled(a, b, lcs, i, 0)
    ensures forall x, y | 0 <= x <= |a| && x != i && 0 <= y <= |b| :: lcs[x, y] == old(lcs[x, y])
  {
    for j := |b| downto 0
      invariant RowFilled(a, b, lcs, i, j) && RowFilled(a, b, lcs, below, 0)
      invariant forall x, y | 0 <= x <= |a| && x != i && 0 <= y <= |b| :: lcs[x, y] == old(lcs[x, y])
    {
      if a[i] == b[j] {
        lcs[i, j] := lcs[below, j + 1] + 1;
      } else if lcs[below, j] >= lcs[i, j + 1] {
        lcs[i, j] := lcs[below, j];
      } else {
        lcs[i, j] := lcs[i, j + 1];
      }
    }
  }
}
