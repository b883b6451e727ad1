/**
 Python's `str`: a sequence of code points, lone surrogates included. A subset of `int` and not
 Dafny's `char`, because the streamer decodes `\uD83D` to a lone surrogate.
 */
module PyText {
  import opened Wrappers

  type CodePoint = c: int | 0 <= c < 0x11_0000

  type Text = seq<CodePoint>

  const QUOTE: CodePoint := 0x22
  const BACKSLASH: CodePoint := 0x5C
  const LBRACE: CodePoint := 0x7B
  const RBRACE: CodePoint := 0x7D
  const LBRACKET: CodePoint := 0x5B
  const RBRACKET: CodePoint := 0x5D
  const COMMA: CodePoint := 0x2C
  const COLON: CodePoint := 0x3A
  const NEWLINE: CodePoint := 0x0A
  const LOWER_U: CodePoint := 0x75

  /** The Python literal `s`. */
  function Lit(s: string): (t: Text)
    ensures |t| == |s|
    ensures forall i :: 0 <= i < |s| ==> t[i] == s[i] as int
  {
    seq(|s|, i requires 0 <= i < |s| => s[i] as int)
  }

  /** `str.isspace()` on one code point. */
  predicate IsSpace(c: CodePoint) {
    || 0x09 <= c <= 0x0D || 0x1C <= c <= 0x20 || c == 0x85 || c == 0xA0 || c == 0x1680
    || 0x2000 <= c <= 0x200A || c == 0x2028 || c == 0x2029 || c == 0x202F || c == 0x205F || c == 0x3000
  }

  function Concat(parts: seq<Text>): Text {
    if parts == [] then [] else parts[0] + Concat(parts[1..])
  }

  lemma {:induction false} ConcatSnoc(parts: seq<Text>, last: Text)
    ensures Concat(parts + [last]) == Concat(parts) + last
  {
    if parts == [] {
    } else {
      ConcatSnoc(parts[1..], last);
      assert (parts + [last])[1..] == parts[1..] + [last];
    }
  }

  predicate HasPrefix(t: Text, p: Text) {
    |p| <= |t| && t[..|p|] == p
  }

  lemma PrefixOfConcat(p: Text, rest: Text)
    ensures HasPrefix(p + rest, p) && (p + rest)[|p|..] == rest
  {
  }

  // --- hexadecimal --------------------------------------------------------

  predicate IsHexDigit(c: CodePoint) {
    0x30 <= c <= 0x39 || 0x41 <= c <= 0x46 || 0x61 <= c <= 0x66
  }

  function HexDigit(c: CodePoint): (d: nat)
    requires IsHexDigit(c)
    ensures d < 16
  {
    if c <= 0x39 then c - 0x30 else if c <= 0x46 then c - 0x37 else c - 0x57
  }

  predicate IsHex4(t: Text) {
    |t| == 4 && IsHexDigit(t[0]) && IsHexDigit(t[1]) && IsHexDigit(t[2]) && IsHexDigit(t[3])
  }

  function Hex4(t: Text): (v: nat)
    requires IsHex4(t)
    ensures v < 0x1_0000
  {
    HexDigit(t[0]) * 0x1000 + HexDigit(t[1]) * 0x100 + HexDigit(t[2]) * 0x10 + HexDigit(t[3])
  }

  function LowerHexDigit(d: nat): (c: CodePoint)
    requires d < 16
    ensures IsHexDigit(c) && HexDigit(c) == d && c > 0x20
  {
    if d < 10 then 0x30 + d else 0x57 + d
  }

  /** `'{0:04x}'.format(v)`. */
  function ToHex4(v: nat): (t: Text)
    requires v < 0x1_0000
    ensures IsHex4(t) && Hex4(t) == v
    ensures forall i :: 0 <= i < 4 ==> t[i] > 0x20
  {
    var v1 := v / 16;
    var v2 := v1 / 16;
    [LowerHexDigit(v2 / 16), LowerHexDigit(v2 % 16), LowerHexDigit(v1 % 16), LowerHexDigit(v % 16)]
  }

  // --- searching ----------------------------------------------------------

  predicate OccursAt(t: Text, needle: Text, i: int) {
    0 <= i && i + |needle| <= |t| && t[i..i + |needle|] == needle
  }

  /** `str.find`. */
  function Find(t: Text, needle: Text): (r: Option<nat>)
    ensures r.Some? ==> OccursAt(t, needle, r.value)
    ensures forall j :: 0 <= j < (if r.Some? then r.value else |t| + 1) ==> !OccursAt(t, needle, j)
  {
    if |t| < |needle| then None
    else if t[..|needle|] == needle then Some(0)
    else
      match Find(t[1..], needle)
      case None => Shift(t, needle, |t|); None
      case Some(i) => Shift(t, needle, i + 1); Some(i + 1)
  }

  lemma Shift(t: Text, needle: Text, bound: int)
    requires |needle| <= |t| && t[..|needle|] != needle
    ensures t != []
    ensures forall j :: OccursAt(t, needle, j) <==> j > 0 && OccursAt(t[1..], needle, j - 1)
  {
    forall j ensures OccursAt(t, needle, j) <==> j > 0 && OccursAt(t[1..], needle, j - 1) {
      if 0 < j && j + |needle| <= |t| { assert t[1..][j - 1..j - 1 + |needle|] == t[j..j + |needle|]; }
    }
  }

  lemma OccursInRest(t: Text, needle: Text, from: nat, j: int)
    requires from <= j && OccursAt(t, needle, j)
    ensures OccursAt(t[from..], needle, j - from)
  {
    assert t[from..][j - from..j - from + |needle|] == t[j..j + |needle|];
  }

  /** The text is one line. */
  predicate NoBreak(t: Text) { forall i :: 0 <= i < |t| ==> t[i] != NEWLINE }

  lemma PlainLiteral(s: string)
    requires forall i :: 0 <= i < |s| ==> s[i] != '\n'
    ensures NoBreak(Lit(s))
  {
  }

  // --- numbers ------------------------------------------------------------

  /** `str(n)`. */
  function Digits(n: nat): (t: Text)
    ensures t != [] && forall i :: 0 <= i < |t| ==> 0x30 <= t[i] <= 0x39
  {
    if n < 10 then [0x30 + n] else Digits(n / 10) + [0x30 + n % 10]
  }

  /** The number some decimal digits spell. */
  function NumberOf(t: Text): int {
    if t == [] then 0 else NumberOf(t[..|t| - 1]) * 10 + (t[|t| - 1] as int - 0x30)
  }

  /** The digits spell the number, without a leading zero. */
  lemma {:induction false} DigitsSpell(n: nat)
    ensures NumberOf(Digits(n)) == n && (n > 0 ==> Digits(n)[0] != 0x30)
  {
    if n < 10 {
      assert Digits(n)[..0] == [];
    } else {
      DigitsSpell(n / 10);
      assert Digits(n)[..|Digits(n)| - 1] == Digits(n / 10);
    }
  }
}
