/**
 C escapes: what add_c_char and its callers write, and how a C compiler reads it back:
 trigraphs and line splices first (sections 5.1.1.2 and 5.2.1.1 of ISO/IEC 9899:2011),
 then the escape sequences (section 6.4.4.4).
 */
module Escape {
  import opened Options
  import opened BufferModel

  const QUOTE: Byte := 34
  const BACKSLASH: Byte := 92
  const QUESTION: Byte := 63
  const NEWLINE: Byte := 10

  /** The letter after the backslash, for the bytes that have one. */
  function Letter(c: Byte): Byte {
    if c == 13 then 114        // r
    else if c == 10 then 110   // n
    else if c == 34 then 34    // "
    else if c == 63 then 63    // ?
    else if c == 92 then 92    // \
    else if c == 7 then 97     // a
    else if c == 8 then 98     // b
    else if c == 12 then 102   // f
    else if c == 9 then 116    // t
    else if c == 11 then 118   // v
    else 0
  }

  predicate IsPrint(c: Byte) {
    32 <= c < 127
  }

  function OctalDigit(v: int): Byte
    requires 0 <= v < 8
  {
    (48 + v) as Byte
  }

  function EscapeChar(c: Byte): (r: seq<Byte>) {
    if Letter(c) != 0 then [BACKSLASH, Letter(c)]
    else if IsPrint(c) then [c]
    else
      [BACKSLASH, OctalDigit(c as int / 64), OctalDigit(c as int / 8 % 8), OctalDigit(c as int % 8)]
  }

  function EscapeAll(s: seq<Byte>): seq<Byte> {
    if s == [] then [] else EscapeChar(s[0]) + EscapeAll(s[1..])
  }

  function Literal(s: seq<Byte>): seq<Byte> {
    [QUOTE] + EscapeAll(s) + [QUOTE]
  }

  // ----------------------------------------------------------------- reading

  /** A simple escape sequence: the byte that a letter after a backslash stands for. */
  function Simple(letter: Byte): Option<Byte> {
    if letter == 39 then Some(39)         // '
    else if letter == 34 then Some(34)    // "
    else if letter == 63 then Some(63)    // ?
    else if letter == 92 then Some(92)    // \
    else if letter == 97 then Some(7)     // a
    else if letter == 98 then Some(8)     // b
    else if letter == 102 then Some(12)   // f
    else if letter == 110 then Some(10)   // n
    else if letter == 114 then Some(13)   // r
    else if letter == 116 then Some(9)    // t
    else if letter == 118 then Some(11)   // v
    else None
  }

  predicate IsOctal(c: Byte) {
    48 <= c < 56
  }

  function HexValue(c: Byte): Option<int> {
    if 48 <= c < 58 then Some(c as int - 48)
    else if 65 <= c < 71 then Some(c as int - 55)
    else if 97 <= c < 103 then Some(c as int - 87)
    else None
  }

  /** How many of the first `most` bytes are octal digits: the longest such sequence is taken. */
  function OctalRun(t: seq<Byte>, most: nat): (n: nat)
    ensures n <= most && n <= |t|
  {
    if most == 0 || t == [] || !IsOctal(t[0]) then 0 else 1 + OctalRun(t[1..], most - 1)
  }

  function OctalValue(t: seq<Byte>): int {
    if t == [] then 0 else OctalValue(t[..|t| - 1]) * 8 + (t[|t| - 1] as int - 48)
  }

  function HexRun(t: seq<Byte>): (n: nat)
    ensures n <= |t|
  {
    if t == [] || HexValue(t[0]).None? then 0 else 1 + HexRun(t[1..])
  }

  function HexNumber(t: seq<Byte>): int {
    if t == [] || HexValue(t[|t| - 1]).None? then 0 else HexNumber(t[..|t| - 1]) * 16 + HexValue(t[|t| - 1]).value
  }

  /** One character of a literal, and how many bytes it takes. */
  datatype Char = Char(c: Byte, length: nat)

  /** The next character; a quote, a new-line and an unknown escape are not one. */
  function ReadChar(t: seq<Byte>): (r: Option<Char>)
    requires t != []
    ensures r.Some? ==> 1 <= r.value.length <= |t|
  {
    if t[0] == QUOTE || t[0] == 10 then None
    else if t[0] != BACKSLASH then Some(Char(t[0], 1))
    else if |t| == 1 then None
    else if IsOctal(t[1]) then
      var n := OctalRun(t[1..], 3);
      var v := OctalValue(t[1..1 + n]);
      if n > 0 && 0 <= v < 256 then Some(Char(v as Byte, 1 + n)) else None
    else if t[1] == 120 then
      var n := HexRun(t[2..]);
      var v := HexNumber(t[2..2 + n]);
      if n > 0 && 0 <= v < 256 then Some(Char(v as Byte, 2 + n)) else None
    else match Simple(t[1])
      case None => None
      case Some(c) => Some(Char(c, 2))
  }

  /** The bytes that an s-char-sequence stands for. */
  function Decode(t: seq<Byte>): Option<seq<Byte>>
    decreases |t|
  {
    if t == [] then Some([])
    else match ReadChar(t)
      case None => None
      case Some(ch) =>
        match Decode(t[ch.length..])
        case None => None
        case Some(rest) => Some([ch.c] + rest)
  }

  /** The bytes of a literal: a sequence between two quotes. */
  function DecodeLiteral(t: seq<Byte>): Option<seq<Byte>> {
    if |t| < 2 || t[0] != QUOTE || t[|t| - 1] != QUOTE then None else Decode(t[1..|t| - 1])
  }

  /** Translation phase 1: what the third character of a trigraph makes of it. */
  function Trigraph(c: Byte): Option<Byte> {
    if c == 61 then Some(35)          // ??= is #
    else if c == 40 then Some(91)     // ??( is [
    else if c == 47 then Some(92)     // ??/ is \
    else if c == 41 then Some(93)     // ??) is ]
    else if c == 39 then Some(94)     // ??' is ^
    else if c == 60 then Some(123)    // ??< is {
    else if c == 33 then Some(124)    // ??! is |
    else if c == 62 then Some(125)    // ??> is }
    else if c == 45 then Some(126)    // ??- is ~
    else None
  }

  function Trigraphs(t: seq<Byte>): seq<Byte> {
    if t == [] then []
    else if |t| >= 3 && t[0] == t[1] == QUESTION && Trigraph(t[2]).Some? then [Trigraph(t[2]).value] + Trigraphs(t[3..])
    else [t[0]] + Trigraphs(t[1..])
  }

  /** Translation phase 2: a backslash before a new-line takes both away. */
  function Spliced(t: seq<Byte>): seq<Byte> {
    if t == [] then []
    else if |t| >= 2 && t[0] == BACKSLASH && t[1] == NEWLINE then Spliced(t[2..])
    else [t[0]] + Spliced(t[1..])
  }

  /** What a compiler makes of the text of a literal. */
  function Compiled(t: seq<Byte>): Option<seq<Byte>> {
    DecodeLiteral(Spliced(Trigraphs(t)))
  }

  // ------------------------------------------------------------------- lemmas

  /**
   The spelling, byte by byte: what prints stands for itself unless it is a quote, a
   question mark or a backslash; ten bytes have a letter.
   */
  lemma Spelling(c: Byte)
    ensures 32 <= c < 127 && c != 34 && c != 63 && c != 92 ==> EscapeChar(c) == [c]
    ensures c == 7 ==> EscapeChar(c) == [92, 97]
    ensures c == 8 ==> EscapeChar(c) == [92, 98]
    ensures c == 9 ==> EscapeChar(c) == [92, 116]
    ensures c == 10 ==> EscapeChar(c) == [92, 110]
    ensures c == 11 ==> EscapeChar(c) == [92, 118]
    ensures c == 12 ==> EscapeChar(c) == [92, 102]
    ensures c == 13 ==> EscapeChar(c) == [92, 114]
    ensures c == 34 || c == 63 || c == 92 ==> EscapeChar(c) == [92, c]
  {
  }

  /** All other bytes are three octal digits. */
  lemma OctalSpelling(c: Byte) returns (a: int, b: int, d: int)
    requires c < 7 || 13 < c < 32 || c >= 127
    ensures 0 <= a < 8 && 0 <= b < 8 && 0 <= d < 8 && c as int == 64 * a + 8 * b + d
    ensures EscapeChar(c) == [92, (48 + a) as Byte, (48 + b) as Byte, (48 + d) as Byte]
  {
    a, b, d := c as int / 64, c as int / 8 % 8, c as int % 8;
  }

  /** What is written holds no two question marks in a row, and nothing that does not print. */
  ghost predicate Plain(t: seq<Byte>) {
    && (forall i :: 0 <= i < |t| ==> 32 <= t[i] < 127)
    && (forall i, j :: 0 <= i && j == i + 1 && j < |t| ==> !(t[i] == t[j] == QUESTION))
  }

  lemma {:induction false} EscapedIsPlain(s: seq<Byte>)
    ensures Plain(EscapeAll(s))
    ensures EscapeAll(s) != [] ==> EscapeAll(s)[0] != QUESTION
  {
    if s != [] {
      EscapedIsPlain(s[1..]);
      CharIsPlain(s[0]);
      Joined(EscapeChar(s[0]), EscapeAll(s[1..]));
    }
  }

  lemma CharIsPlain(c: Byte)
    ensures Plain(EscapeChar(c)) && EscapeChar(c) != [] && EscapeChar(c)[0] != QUESTION
  {
    if c < 7 || 13 < c < 32 || c >= 127 {
      var a, b, d := OctalSpelling(c);
    } else {
      Spelling(c);
    }
  }

  lemma Joined(t: seq<Byte>, u: seq<Byte>)
    requires Plain(t) && Plain(u) && (u != [] ==> u[0] != QUESTION)
    ensures Plain(t + u)
  {
  }

  lemma TailIsPlain(t: seq<Byte>)
    requires Plain(t) && t != []
    ensures Plain(t[1..])
  {
    forall i, j | 0 <= i && j == i + 1 && j < |t[1..]| ensures !(t[1..][i] == t[1..][j] == QUESTION) {
      assert t[1..][i] == t[j] && t[1..][j] == t[j + 1];
    }
  }

  /** So there are no trigraphs to replace and no lines to splice. */
  lemma {:induction false} PlainIsKept(t: seq<Byte>)
    requires Plain(t)
    ensures Trigraphs(t) == t && Spliced(t) == t
  {
    if t != [] {
      TailIsPlain(t);
      PlainIsKept(t[1..]);
      assert [t[0]] + t[1..] == t;
    }
  }

  /** A compiler reads one escaped byte back, whatever follows it. */
  lemma EscapeReadsBack(c: Byte, rest: seq<Byte>)
    ensures ReadChar(EscapeChar(c) + rest) == Some(Char(c, |EscapeChar(c)|))
  {
    var t := EscapeChar(c) + rest;
    if Letter(c) != 0 {
      assert t[0] == BACKSLASH && t[1] == Letter(c);
    } else if IsPrint(c) {
      assert t[0] == c;
    } else {
      OctalReadsBack(c, rest);
    }
  }

  /** Three octal digits are the most an octal escape takes, so that a digit may follow. */
  lemma OctalReadsBack(c: Byte, rest: seq<Byte>)
    requires Letter(c) == 0 && !IsPrint(c)
    ensures ReadChar(EscapeChar(c) + rest) == Some(Char(c, 4))
  {
    var t := EscapeChar(c) + rest;
    var a, b, d := OctalDigit(c as int / 64), OctalDigit(c as int / 8 % 8), OctalDigit(c as int % 8);
    assert t[0] == BACKSLASH && t[1] == a && t[2] == b && t[3] == d;
    ThreeDigits(a, b, d, rest);
    assert t[1..] == [a, b, d] + rest && t[1..4] == [a, b, d];
  }

  lemma ThreeDigits(a: Byte, b: Byte, d: Byte, rest: seq<Byte>)
    requires IsOctal(a) && IsOctal(b) && IsOctal(d)
    ensures OctalRun([a, b, d] + rest, 3) == 3
    ensures OctalValue([a, b, d]) == (a as int - 48) * 64 + (b as int - 48) * 8 + (d as int - 48)
  {
    var t := [a, b, d] + rest;
    assert t[1..] == [b, d] + rest && t[1..][1..] == [d] + rest;
    assert OctalRun([d] + rest, 1) == 1;
    assert OctalRun([b, d] + rest, 2) == 2;
    assert [a, b, d][..2] == [a, b] && [a, b][..1] == [a] && [a][..0] == [];
    assert OctalValue([a]) == a as int - 48;
    assert OctalValue([a, b]) == OctalValue([a]) * 8 + (b as int - 48);
  }

  /** Decoding the escaped bytes gives the bytes. */
  lemma {:induction false} RoundTrip(s: seq<Byte>)
    ensures Decode(EscapeAll(s)) == Some(s)
  {
    if s != [] {
      var e, rest := EscapeChar(s[0]), EscapeAll(s[1..]);
      EscapeReadsBack(s[0], rest);
      RoundTrip(s[1..]);
      assert (e + rest)[|e|..] == rest;
      assert [s[0]] + s[1..] == s;
    }
  }

  /** All phases together: a compiler makes the argument of add_c_string of what it writes. */
  lemma CompilesBack(s: seq<Byte>)
    ensures Compiled(Literal(s)) == Some(s)
  {
    EscapedIsPlain(s);
    Joined([QUOTE], EscapeAll(s));
    Joined([QUOTE] + EscapeAll(s), [QUOTE]);
    PlainIsKept(Literal(s));
    LiteralRoundTrip(s);
  }

  /** The literal that add_c_string writes denotes its argument. */
  lemma LiteralRoundTrip(s: seq<Byte>)
    ensures DecodeLiteral(Literal(s)) == Some(s)
  {
    var t := Literal(s);
    assert t[1..|t| - 1] == EscapeAll(s);
    RoundTrip(s);
  }
}
