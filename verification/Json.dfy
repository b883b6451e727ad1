/** JSON values as Python holds them, `json.dumps(…, indent=4)` and `json.loads`. */
module Json {
  import opened PyText

  // --- values -------------------------------------------------------------

  predicate IsDigit(c: CodePoint) { 0x30 <= c <= 0x39 }

  /** The characters a JSON number is made of: digits, `+ - . e E`. */
  predicate NumberChar(c: CodePoint) {
    IsDigit(c) || c == 0x2B || c == 0x2D || c == 0x2E || c == 0x45 || c == 0x65
  }

  function DigitRun(t: Text): (n: nat)
    ensures n <= |t|
    ensures forall i :: 0 <= i < n ==> IsDigit(t[i])
    ensures n < |t| ==> !IsDigit(t[n])
  {
    if t == [] || !IsDigit(t[0]) then 0 else 1 + DigitRun(t[1..])
  }

  predicate IsExponent(t: Text) {
    t == [] || (
      (t[0] == 0x45 || t[0] == 0x65) &&
      var digits := if |t| > 1 && (t[1] == 0x2B || t[1] == 0x2D) then t[2..] else t[1..];
      digits != [] && DigitRun(digits) == |digits|)
  }

  predicate IsFractionAndExponent(t: Text) {
    if t != [] && t[0] == 0x2E
    then var n := DigitRun(t[1..]); n > 0 && IsExponent(t[1 + n..])
    else IsExponent(t)
  }

  /** The number grammar of RFC 8259 section 6. */
  predicate IsNumber(t: Text) {
    && t != []
    && (forall i :: 0 <= i < |t| ==> NumberChar(t[i]))
    && var body := if t[0] == 0x2D then t[1..] else t;
    && body != [] && IsDigit(body[0])
    && (var n := if body[0] == 0x30 then 1 else DigitRun(body); IsFractionAndExponent(body[n..]))
  }

  /** The three constants Python's `json` reads and writes besides RFC 8259 numbers. */
  predicate IsFloatWord(t: Text) {
    t == Lit("NaN") || t == Lit("Infinity") || t == Lit("-Infinity")
  }

  type Numeral = t: Text | IsNumber(t) || IsFloatWord(t) witness [0x30]

  /** A number value is known by the numeral it was read from. */
  datatype Json =
    | Null
    | Bool(b: bool)
    | Num(numeral: Numeral)
    | Str(text: Text)
    | Arr(elems: seq<Json>)
    | Obj(members: seq<Member>)

  datatype Member = Member(key: Text, value: Json)

  // --- dict ---------------------------------------------------------------

  predicate HasKey(d: seq<Member>, key: Text) {
    exists i :: 0 <= i < |d| && d[i].key == key
  }

  predicate DistinctKeys(d: seq<Member>) {
    forall i, j :: 0 <= i < j < |d| ==> d[i].key != d[j].key
  }

  /** `d[key] = value` on an insertion-ordered dict. */
  function DictSet(d: seq<Member>, m: Member): (r: seq<Member>)
    ensures HasKey(d, m.key) ==> |r| == |d|
    ensures !HasKey(d, m.key) ==> r == d + [m]
  {
    if d == [] then [m]
    else if d[0].key == m.key then [m] + d[1..]
    else
      var rest := DictSet(d[1..], m);
      assert HasKey(d[1..], m.key) <==> HasKey(d, m.key) by {
        if HasKey(d, m.key) {
          var i :| 0 <= i < |d| && d[i].key == m.key;
          assert d[1..][i - 1].key == m.key;
        }
        if HasKey(d[1..], m.key) {
          var i :| 0 <= i < |d[1..]| && d[1..][i].key == m.key;
          assert d[i + 1].key == m.key;
        }
      }
      [d[0]] + rest
  }

  /** `dict(pairs)`: the last value of a repeated key wins, at the place of the first. */
  function Dict(pairs: seq<Member>): seq<Member> {
    if pairs == [] then [] else DictSet(Dict(pairs[..|pairs| - 1]), pairs[|pairs| - 1])
  }

  lemma DictStep(init: seq<Member>, last: Member)
    ensures Dict(init + [last]) == DictSet(Dict(init), last)
  {
    assert (init + [last])[..|init|] == init;
  }

  lemma {:induction false} DictOfDistinct(pairs: seq<Member>)
    requires DistinctKeys(pairs)
    ensures Dict(pairs) == pairs
  {
    if pairs != [] {
      var init, last := pairs[..|pairs| - 1], pairs[|pairs| - 1];
      DictOfDistinct(init);
      assert !HasKey(init, last.key);
      assert init + [last] == pairs;
    }
  }

  // --- json.dumps(value, indent=4) ----------------------------------------

  /** The numeral Python prints for a number it read: `repr` of the int or float, foreign code. */
  const NumberText: Numeral -> Numeral

  /** `ensure_ascii` escaping of one code point, astral ones as a surrogate pair. */
  function EscapeChar(c: CodePoint): Text {
    if c == QUOTE then Lit("\\\"")
    else if c == BACKSLASH then Lit("\\\\")
    else if c == 0x08 then Lit("\\b")
    else if c == 0x0C then Lit("\\f")
    else if c == 0x0A then Lit("\\n")
    else if c == 0x0D then Lit("\\r")
    else if c == 0x09 then Lit("\\t")
    else if 0x20 <= c <= 0x7E then [c]
    else if c < 0x1_0000 then EscapeUnit(c)
    else EscapeUnit(0xD800 + (c - 0x1_0000) / 0x400) + EscapeUnit(0xDC00 + (c - 0x1_0000) % 0x400)
  }

  function EscapeUnit(u: CodePoint): Text
    requires u < 0x1_0000
  {
    [BACKSLASH, LOWER_U] + ToHex4(u)
  }

  function Escape(t: Text): Text {
    if t == [] then [] else EscapeChar(t[0]) + Escape(t[1..])
  }

  function DumpsString(t: Text): Text {
    [QUOTE] + Escape(t) + [QUOTE]
  }

  function Indent(level: nat): Text {
    if level == 0 then [] else Lit("    ") + Indent(level - 1)
  }

  function Break(level: nat): Text { [NEWLINE] + Indent(level) }

  function CommaIf(more: bool): Text { if more then [COMMA] else [] }

  /** `json.dumps(v, indent=4)` as it appears `level` levels deep. */
  function Dumps(v: Json, level: nat): Text
    decreases v, 1
  {
    match v
    case Null => Lit("null")
    case Bool(b) => if b then Lit("true") else Lit("false")
    case Num(n) => NumberText(n)
    case Str(t) => DumpsString(t)
    case Arr(elems) =>
      if elems == [] then Lit("[]")
      else [LBRACKET] + DumpsElems(elems, level + 1) + Break(level) + [RBRACKET]
    case Obj(members) =>
      if members == [] then Lit("{}")
      else [LBRACE] + DumpsMembers(members, level + 1) + Break(level) + [RBRACE]
  }

  function DumpsElems(elems: seq<Json>, level: nat): Text
    decreases elems, 0
  {
    if elems == [] then []
    else Break(level) + Dumps(elems[0], level) + CommaIf(|elems| > 1) + DumpsElems(elems[1..], level)
  }

  function DumpsMembers(members: seq<Member>, level: nat): Text
    decreases members, 0
  {
    if members == [] then []
    else Break(level) + DumpsMember(members[0], level) + CommaIf(|members| > 1) + DumpsMembers(members[1..], level)
  }

  function DumpsMember(m: Member, level: nat): Text
    decreases m, 0
  {
    DumpsString(m.key) + Lit(": ") + Dumps(m.value, level)
  }
}
