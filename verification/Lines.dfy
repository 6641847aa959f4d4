/** Text as lines: the newline-separated reading of a string that the diff and patch
    engines share (Go's strings.Split and strings.Join on "\n"). */
module Lines {

  /** Positions in ascending order. */
  predicate Increasing(f: seq<nat>) {
    forall i, j | 0 <= i < j < |f| :: f[i] < f[j]
  }

  predicate OneLine(s: string) {
    '\n' !in s
  }

  predicate AllOneLine(ls: seq<string>) {
    forall i | 0 <= i < |ls| :: OneLine(ls[i])
  }

  function Split(s: string): (ls: seq<string>)
    ensures |ls| >= 1
  {
    if s == "" then [""]
    else
      var rest := Split(s[1..]);
      if s[0] == '\n' then [""] + rest
      else [[s[0]] + rest[0]] + rest[1..]
  }

  function Join(ls: seq<string>): string {
    if ls == [] then ""
    else if |ls| == 1 then ls[0]
    else ls[0] + "\n" + Join(ls[1..])
  }

  lemma {:induction false} SplitPieces(s: string)
    ensures AllOneLine(Split(s))
  {
    if s != "" {
      SplitPieces(s[1..]);
    }
  }

  lemma {:induction false} JoinSplit(s: string)
    ensures Join(Split(s)) == s
  {
    if s != "" {
      var rest := Split(s[1..]);
      JoinSplit(s[1..]);
      if s[0] == '\n' {
        assert Split(s)[1..] == rest;
      } else {
        assert Split(s)[1..] == rest[1..];
      }
    }
  }

  lemma {:induction false} SplitLine(l: string, s: string)
    requires OneLine(l)
    ensures Split(l) == [l]
    ensures Split(l + "\n" + s) == [l] + Split(s)
  {
    if l == "" {
      assert l + "\n" + s == "\n" + s && ("\n" + s)[1..] == s;
    } else {
      SplitLine(l[1..], s);
      var t := l + "\n" + s;
      assert t[0] == l[0] && t[1..] == l[1..] + "\n" + s;
      assert [l[0]] + l[1..] == l;
    }
  }

  lemma {:induction false} SplitJoin(ls: seq<string>)
    requires ls != [] && AllOneLine(ls)
    ensures Split(Join(ls)) == ls
  {
    if |ls| == 1 {
      SplitLine(ls[0], "");
    } else {
      SplitJoin(ls[1..]);
      SplitLine(ls[0], Join(ls[1..]));
    }
  }

  /** Lines each closed by a newline are the lines joined, with an empty piece after them. */
  lemma SplitTerminatedLines(ls: seq<string>)
    requires ls != [] && AllOneLine(ls)
    ensures Split(Join(ls) + "\n") == ls + [""]
  {
    JoinTerminated(ls);
    SplitJoin(ls + [""]);
  }

  lemma {:induction false} JoinTerminated(ls: seq<string>)
    requires ls != []
    ensures Join(ls + [""]) == Join(ls) + "\n"
  {
    assert (ls + [""])[1..] == ls[1..] + [""];
    if |ls| > 1 {
      JoinTerminated(ls[1..]);
    }
  }

  /** The white space of Unicode, as Go's strings.TrimSpace reads it. */
  predicate IsSpace(c: char) {
    || '\t' <= c <= '\r' || c == ' ' || c == '\U{85}' || c == '\U{A0}' || c == '\U{1680}'
    || '\U{2000}' <= c <= '\U{200A}' || c == '\U{2028}' || c == '\U{2029}' || c == '\U{202F}'
    || c == '\U{205F}' || c == '\U{3000}'
  }

  function TrimLeft(s: string): string {
    if s != "" && IsSpace(s[0]) then TrimLeft(s[1..]) else s
  }

  function TrimRight(s: string): string {
    if s != "" && IsSpace(s[|s| - 1]) then TrimRight(s[..|s| - 1]) else s
  }

  function TrimSpace(s: string): string {
    TrimRight(TrimLeft(s))
  }

  lemma {:induction false} TrimLeftSuffix(s: string)
    ensures |TrimLeft(s)| <= |s| && TrimLeft(s) == s[|s| - |TrimLeft(s)|..]
    ensures TrimLeft(s) != "" ==> !IsSpace(TrimLeft(s)[0])
  {
    if s != "" && IsSpace(s[0]) {
      TrimLeftSuffix(s[1..]);
    }
  }

  lemma {:induction false} TrimRightPrefix(s: string)
    ensures TrimRight(s) <= s
    ensures TrimRight(s) != "" ==> !IsSpace(TrimRight(s)[|TrimRight(s)| - 1])
  {
    if s != "" && IsSpace(s[|s| - 1]) {
      TrimRightPrefix(s[..|s| - 1]);
    }
  }

  /** The code points of white space, one by one. */
  lemma SpacesAre(c: char)
    ensures IsSpace(c) <==>
              c as int in {0x9, 0xA, 0xB, 0xC, 0xD, 0x20, 0x85, 0xA0, 0x1680, 0x2000, 0x2001, 0x2002, 0x2003, 0x2004, 0x2005, 0x2006,
                           0x2007, 0x2008, 0x2009, 0x200A, 0x2028, 0x2029, 0x202F, 0x205F, 0x3000}
  {
  }

  /** Trimming leaves what lies between the white space on either side. */
  lemma TrimmedIs(s: string, i: nat, j: nat)
    requires i <= j <= |s|
    requires (forall k | 0 <= k < i :: IsSpace(s[k])) && (forall k | j <= k < |s| :: IsSpace(s[k]))
    requires i < j ==> !IsSpace(s[i]) && !IsSpace(s[j - 1])
    ensures TrimSpace(s) == s[i..j]
  {
    hide IsSpace;
    TrimLeftIs(s, if i < j then i else |s|);
    var rest := TrimLeft(s);
    if i < j {
      TrimRightIs(rest, j - i);
    }
  }

  lemma {:induction false} TrimLeftIs(s: string, i: nat)
    requires i <= |s| && (forall k | 0 <= k < i :: IsSpace(s[k])) && (i < |s| ==> !IsSpace(s[i]))
    ensures TrimLeft(s) == s[i..]
  {
    if i > 0 {
      TrimLeftIs(s[1..], i - 1);
    }
  }

  lemma {:induction false} TrimRightIs(s: string, j: nat)
    requires j <= |s| && (forall k | j <= k < |s| :: IsSpace(s[k])) && (j > 0 ==> !IsSpace(s[j - 1]))
    ensures TrimRight(s) == s[..j]
  {
    if j < |s| {
      TrimRightIs(s[..|s| - 1], j);
    }
  }

  /** Trimmed text starts and ends visibly. */
  lemma TrimSpaceKeepsEnds(s: string)
    ensures var v := TrimSpace(s);
            v != "" ==> !IsSpace(v[0]) && !IsSpace(v[|v| - 1])
  {
    hide IsSpace;
    TrimLeftSuffix(s);
    TrimRightPrefix(TrimLeft(s));
  }

  /** Text starting with a visible character trims to a prefix of itself. */
  lemma TrimKeepsStart(s: string)
    requires s != "" && !IsSpace(s[0])
    ensures TrimSpace(s) <= s
  {
    TrimRightPrefix(s);
  }

  /** Trimmed text stays as it is when trimmed again, and gains no newline. */
  lemma TrimAgain(s: string)
    ensures TrimSpace(TrimSpace(s)) == TrimSpace(s)
    ensures OneLine(s) ==> OneLine(TrimSpace(s))
  {
    TrimLeftSuffix(s);
    TrimRightPrefix(TrimLeft(s));
  }

  // ---------------------------------------------------------------------------
  // Decimal numerals
  // ---------------------------------------------------------------------------

  const DIGITS := "0123456789"

  function Decimal(n: nat): string {
    if n < 10 then [DIGITS[n]] else Decimal(n / 10) + [DIGITS[n % 10]]
  }

  function DigitValue(c: char): int {
    c as int - '0' as int
  }

  function Value(s: string): int {
    if s == "" then 0 else 10 * Value(s[..|s| - 1]) + DigitValue(s[|s| - 1])
  }

  /** A numeral is digits that spell its number, without a leading zero but for zero itself. */
  lemma {:induction false} DecimalSpells(n: nat)
    ensures Decimal(n) != "" && forall c <- Decimal(n) :: '0' <= c <= '9'
    ensures Value(Decimal(n)) == n
    ensures n > 0 ==> Decimal(n)[0] != '0'
  {
    DigitsSpell(n % 10);
    if n >= 10 {
      hide DIGITS, DigitValue;
      DecimalSpells(n / 10);
      assert Decimal(n)[..|Decimal(n)| - 1] == Decimal(n / 10);
    }
  }

  lemma DigitsSpell(d: nat)
    requires d < 10
    ensures '0' <= DIGITS[d] <= '9' && DigitValue(DIGITS[d]) == d && (d > 0 ==> DIGITS[d] != '0')
  {
  }
}
