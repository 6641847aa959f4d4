/** Bytes and the UTF-8 decoding that Go's range loops and utf8 package share. */
module Utf8 {
  newtype byte = b: int | 0 <= b < 256

  type Bytes = seq<byte>

  const NEWLINE: byte := 10

  predicate Continues(b: byte, lo: byte, hi: byte) {
    lo <= b <= hi
  }

  /** The length a lead byte announces, and the range its second byte must lie in. */
  function Announced(lead: byte): (nat, byte, byte) {
    if 0xC2 <= lead <= 0xDF then (2, 0x80, 0xBF)
    else if lead == 0xE0 then (3, 0xA0, 0xBF)
    else if lead == 0xED then (3, 0x80, 0x9F)
    else if 0xE1 <= lead <= 0xEF then (3, 0x80, 0xBF)
    else if lead == 0xF0 then (4, 0x90, 0xBF)
    else if 0xF1 <= lead <= 0xF3 then (4, 0x80, 0xBF)
    else if lead == 0xF4 then (4, 0x80, 0x8F)
    else (1, 0, 0)
  }

  /** The bytes of the rune at i; a byte that starts no valid encoding is a rune of its own. */
  function RuneSize(s: Bytes, i: nat): (n: nat)
    requires i < |s|
    ensures 1 <= n && i + n <= |s|
    ensures forall k | i < k < i + n :: s[k] != NEWLINE
    ensures s[i] == NEWLINE ==> n == 1
  {
    var (n, lo, hi) := Announced(s[i]);
    if i + n > |s| then 1
    else if n >= 2 && !Continues(s[i + 1], lo, hi) then 1
    else if n >= 3 && !Continues(s[i + 2], 0x80, 0xBF) then 1
    else if n >= 4 && !Continues(s[i + 3], 0x80, 0xBF) then 1
    else n
  }

  /** How many runes a text holds from byte i on. */
  function RunesFrom(s: Bytes, i: nat): (n: nat)
    requires i <= |s|
    ensures n <= |s| - i
    ensures n == 0 <==> i == |s|
    decreases |s| - i
  {
    if i == |s| then 0 else 1 + RunesFrom(s, i + RuneSize(s, i))
  }

  // ---------------------------------------------------------------------------
  // The encoding that is decoded
  // ---------------------------------------------------------------------------

  predicate Scalar(c: int) {
    0 <= c < 0xD800 || 0xE000 <= c <= 0x10FFFF
  }

  /** The encoding of a Unicode scalar value (RFC 3629, section 3). */
  function Encode(c: int): Bytes
    requires Scalar(c)
  {
    if c < 0x80 then [c as byte]
    else if c < 0x800 then [(0xC0 + c / 64) as byte, (0x80 + c % 64) as byte]
    else if c < 0x10000 then [(0xE0 + c / 4096) as byte, (0x80 + c / 64 % 64) as byte, (0x80 + c % 64) as byte]
    else [(0xF0 + c / 262144) as byte, (0x80 + c / 4096 % 64) as byte, (0x80 + c / 64 % 64) as byte, (0x80 + c % 64) as byte]
  }

  /** The low and the high part of a number written to the base of 64. */
  lemma Sixes(h: nat, x: nat)
    requires x < 64
    ensures (h * 64 + x) / 64 == h && (h * 64 + x) % 64 == x
  {
  }

  lemma Encoding2(h: nat, x: nat)
    requires 2 <= h < 32 && x < 64
    ensures Encode(h * 64 + x) == [(0xC0 + h) as byte, (0x80 + x) as byte]
  {
    Sixes(h, x);
  }

  lemma Encoding3(h: nat, x: nat, y: nat)
    requires h < 16 && x < 64 && y < 64 && (h == 0 ==> x >= 32) && (h == 13 ==> x < 32)
    ensures Scalar(h * 4096 + x * 64 + y)
    ensures Encode(h * 4096 + x * 64 + y) == [(0xE0 + h) as byte, (0x80 + x) as byte, (0x80 + y) as byte]
  {
    var c := h * 4096 + x * 64 + y;
    Sixes(h * 64 + x, y);
    Sixes(h, x);
    assert c / 4096 == c / 64 / 64;
  }

  lemma Encoding4(h: nat, x: nat, y: nat, z: nat)
    requires h < 5 && x < 64 && y < 64 && z < 64 && (h == 0 ==> x >= 16) && (h == 4 ==> x < 16)
    ensures Scalar(h * 262144 + x * 4096 + y * 64 + z)
    ensures Encode(h * 262144 + x * 4096 + y * 64 + z) ==
            [(0xF0 + h) as byte, (0x80 + x) as byte, (0x80 + y) as byte, (0x80 + z) as byte]
  {
    var c := h * 262144 + x * 4096 + y * 64 + z;
    Sixes(h * 4096 + x * 64 + y, z);
    Sixes(h * 64 + x, y);
    Sixes(h, x);
    assert c / 4096 == c / 64 / 64 && c / 262144 == c / 64 / 64 / 64;
  }

  /** Where a well-formed sequence of bytes stands, the rune is all of it. */
  lemma RuneOf(s: Bytes, i: nat, n: nat, h: int)
    requires 1 <= n <= 4 && i + n <= |s| && s[i] as int == [0, 0xC0, 0xE0, 0xF0][n - 1] + h
    requires forall k | i < k < i + n :: 0x80 <= s[k] <= 0xBF
    requires n == 1 ==> 0 <= h < 0x80
    requires n == 2 ==> 2 <= h < 32
    requires n == 3 ==> 0 <= h < 16 && (h == 0 ==> s[i + 1] >= 0xA0) && (h == 13 ==> s[i + 1] < 0xA0)
    requires n == 4 ==> 0 <= h < 5 && (h == 0 ==> s[i + 1] >= 0x90) && (h == 4 ==> s[i + 1] < 0x90)
    ensures RuneSize(s, i) == n
  {
  }

  lemma Digits(c: int)
    requires Scalar(c)
    ensures c >= 0x80 ==> c == c / 64 * 64 + c % 64
    ensures c >= 0x800 ==> c == c / 4096 * 4096 + c / 64 % 64 * 64 + c % 64
    ensures c >= 0x10000 ==> c == c / 262144 * 262144 + c / 4096 % 64 * 4096 + c / 64 % 64 * 64 + c % 64
  {
    assert c / 4096 == c / 64 / 64 && c / 262144 == c / 64 / 64 / 64;
  }

  /** At the encoding of a scalar value the rune is that encoding. */
  lemma EncodedRune(before: Bytes, c: int, after: Bytes)
    requires Scalar(c)
    ensures RuneSize(before + Encode(c) + after, |before|) == |Encode(c)|
  {
    hide RuneSize;
    var s, i, e := before + Encode(c) + after, |before|, Encode(c);
    assert s[i..i + |e|] == e && forall k | i <= k < i + |e| :: s[k] == e[k - i];
    Digits(c);
    RuneOf(s, i, |e|, if c < 0x80 then c else if c < 0x800 then c / 64 else if c < 0x10000 then c / 4096 else c / 262144);
  }

  /** A rune of several bytes is the encoding of a scalar value, so where none is encoded each
      byte counts for itself. */
  lemma LongRuneIsEncoded(s: Bytes, i: nat)
    requires i < |s| && RuneSize(s, i) > 1
    ensures exists c | Scalar(c) :: Encode(c) == s[i..i + RuneSize(s, i)]
  {
    var n := RuneSize(s, i);
    LeadOfRune(s, i);
    hide RuneSize, Encode;
    var x := s[i + 1] as int - 0x80;
    if n == 2 {
      var h := s[i] as int - 0xC0;
      Encoding2(h, x);
      assert s[i..i + 2] == [s[i], s[i + 1]];
      assert Scalar(h * 64 + x);
    } else if n == 3 {
      var h, y := s[i] as int - 0xE0, s[i + 2] as int - 0x80;
      Encoding3(h, x, y);
      assert s[i..i + 3] == [s[i], s[i + 1], s[i + 2]];
    } else {
      var h, y, z := s[i] as int - 0xF0, s[i + 2] as int - 0x80, s[i + 3] as int - 0x80;
      Encoding4(h, x, y, z);
      assert s[i..i + 4] == [s[i], s[i + 1], s[i + 2], s[i + 3]];
    }
  }

  lemma LeadOfRune(s: Bytes, i: nat)
    requires i < |s| && RuneSize(s, i) > 1
    ensures var n := RuneSize(s, i);
            && n <= 4 && (forall k | i < k < i + n :: 0x80 <= s[k] <= 0xBF)
            && (n == 2 ==> 0xC2 <= s[i] <= 0xDF)
            && (n == 3 ==> 0xE0 <= s[i] <= 0xEF && (s[i] == 0xE0 ==> s[i + 1] >= 0xA0) && (s[i] == 0xED ==> s[i + 1] < 0xA0))
            && (n == 4 ==> 0xF0 <= s[i] <= 0xF4 && (s[i] == 0xF0 ==> s[i + 1] >= 0x90) && (s[i] == 0xF4 ==> s[i + 1] < 0x90))
  {
  }

  /** The number of bytes of a text. */
  function ByteLength(text: string): nat {
    if text == "" then 0 else |Encode(text[0] as int)| + ByteLength(text[1..])
  }

  function EncodeText(text: string): Bytes {
    if text == "" then [] else Encode(text[0] as int) + EncodeText(text[1..])
  }

  /** An encoded text has as many runes as characters. */
  lemma {:induction false} RunesOfText(before: Bytes, text: string)
    ensures RunesFrom(before + EncodeText(text), |before|) == |text|
    decreases |text|
  {
    hide RuneSize, Encode;
    var s := before + EncodeText(text);
    if text != "" {
      var e, rest := Encode(text[0] as int), EncodeText(text[1..]);
      assert s == before + e + rest;
      EncodedRune(before, text[0] as int, rest);
      NonEmptyEncoding(text[0] as int);
      RunesOfText(before + e, text[1..]);
    }
  }

  lemma NonEmptyEncoding(c: int)
    requires Scalar(c)
    ensures 1 <= |Encode(c)| <= 4
  {
  }
}
