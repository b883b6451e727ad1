/** The layout of `json.dumps(…, indent=4)`: which text stands between the members and elements of a value. */
module JsonLayout {
  import opened PyText
  import opened Sequences
  import opened Json
  import opened JsonSpellings

  function Spaces(n: nat): Text { seq(n, _ => ' ' as int) }

  /** A new line, indented four spaces for each level. */
  function NewLine(level: nat): Text { Lit("\n") + Spaces(4 * level) }

  /** `separator.join(parts)`. */
  function Joined(parts: seq<Text>, separator: Text): Text {
    if parts == [] then []
    else if |parts| == 1 then parts[0]
    else parts[0] + separator + Joined(parts[1..], separator)
  }

  lemma {:induction false} IndentIsSpaces(level: nat)
    ensures Indent(level) == Spaces(4 * level)
  {
    if level > 0 {
      IndentIsSpaces(level - 1);
      assert Lit("    ") == Spaces(4);
      assert Spaces(4) + Spaces(4 * (level - 1)) == Spaces(4 * level);
    }
  }

  lemma BreakIsNewLine(level: nat)
    ensures Break(level) == NewLine(level)
  {
    IndentIsSpaces(level);
    assert Lit("\n") == [NEWLINE];
  }

  function ElemTexts(elems: seq<Json>, level: nat): (r: seq<Text>)
    ensures |r| == |elems|
  {
    seq(|elems|, i requires 0 <= i < |elems| => Dumps(elems[i], level))
  }

  function MemberTexts(members: seq<Member>, level: nat): (r: seq<Text>)
    ensures |r| == |members|
  {
    seq(|members|, i requires 0 <= i < |members| => DumpsString(members[i].key) + Lit(": ") + Dumps(members[i].value, level))
  }

  lemma OneMore(line: Text, first: Text, rest: Text)
    ensures line + first + Lit(",") + (line + rest) == line + (first + (Lit(",") + line) + rest)
  {
  }

  lemma {:induction false} ElemsAreJoined(elems: seq<Json>, level: nat)
    requires elems != []
    ensures DumpsElems(elems, level) == NewLine(level) + Joined(ElemTexts(elems, level), Lit(",") + NewLine(level))
    decreases elems
  {
    BreakIsNewLine(level);
    var texts, line, first := ElemTexts(elems, level), NewLine(level), Dumps(elems[0], level);
    assert Lit(",") == [COMMA];
    hide Dumps, NewLine, Break;
    if |elems| == 1 {
      assert DumpsElems(elems[1..], level) == [];
      assert line + first + [] + [] == line + first;
    } else {
      ElemsAreJoined(elems[1..], level);
      assert texts[1..] == ElemTexts(elems[1..], level);
      OneMore(line, first, Joined(texts[1..], Lit(",") + line));
    }
  }

  lemma {:induction false} MembersAreJoined(members: seq<Member>, level: nat)
    requires members != []
    ensures DumpsMembers(members, level) == NewLine(level) + Joined(MemberTexts(members, level), Lit(",") + NewLine(level))
    decreases members
  {
    BreakIsNewLine(level);
    var texts, line, first := MemberTexts(members, level), NewLine(level), DumpsMember(members[0], level);
    assert Lit(",") == [COMMA];
    assert texts[0] == first;
    hide Dumps, NewLine, Break, DumpsMember, DumpsString;
    if |members| == 1 {
      assert DumpsMembers(members[1..], level) == [];
      assert line + first + [] + [] == line + first;
    } else {
      MembersAreJoined(members[1..], level);
      assert texts[1..] == MemberTexts(members[1..], level);
      OneMore(line, first, Joined(texts[1..], Lit(",") + line));
    }
  }

  /** The parts of a value one level deeper, each on its own line, with a comma between two; no line break if there are none. */
  function Block(open: Text, parts: seq<Text>, level: nat, shut: Text): Text {
    if parts == [] then open + shut
    else open + (NewLine(level + 1) + Joined(parts, Lit(",") + NewLine(level + 1))) + NewLine(level) + shut
  }

  /** Every value but a number and a string, whose texts are their own: where its lines break, and what separates its parts. */
  lemma Layout(v: Json, level: nat)
    ensures match v
      case Null => Dumps(v, level) == Lit("null")
      case Bool(b) => Dumps(v, level) == if b then Lit("true") else Lit("false")
      case Num(n) => Dumps(v, level) == NumberText(n)
      case Str(t) => Dumps(v, level) == DumpsString(t)
      case Arr(elems) => Dumps(v, level) == Block(Lit("["), ElemTexts(elems, level + 1), level, Lit("]"))
      case Obj(members) => Dumps(v, level) == Block(Lit("{"), MemberTexts(members, level + 1), level, Lit("}"))
  {
    BreakIsNewLine(level);
    hide NewLine, Break;
    match v {
      case Arr(elems) =>
        if elems != [] {
          ElemsAreJoined(elems, level + 1);
          assert Lit("[") == [LBRACKET] && Lit("]") == [RBRACKET];
        } else {
          assert Lit("[") + Lit("]") == Lit("[]");
        }
      case Obj(members) =>
        if members != [] {
          MembersAreJoined(members, level + 1);
          assert Lit("{") == [LBRACE] && Lit("}") == [RBRACE];
        } else {
          assert Lit("{") + Lit("}") == Lit("{}");
        }
      case _ =>
    }
  }

  /** Strings are ASCII: what is not printable there is escaped, and nothing else is but the quote and the backslash. */
  lemma {:induction false} EscapedIsAscii(t: Text)
    ensures forall i :: 0 <= i < |Escape(t)| ==> 0x20 <= Escape(t)[i] <= 0x7E
    ensures (forall i :: 0 <= i < |t| ==> 0x20 <= t[i] <= 0x7E && t[i] != QUOTE && t[i] != BACKSLASH) ==> Escape(t) == t
    decreases t
  {
    if t != [] {
      EscapedIsAscii(t[1..]);
      EscapedCharIsAscii(t[0]);
      hide EscapeChar;
      assert t == [t[0]] + t[1..];
    }
  }

  lemma EscapedCharIsAscii(c: CodePoint)
    ensures forall i :: 0 <= i < |EscapeChar(c)| ==> 0x20 <= EscapeChar(c)[i] <= 0x7E
    ensures 0x20 <= c <= 0x7E && c != QUOTE && c != BACKSLASH ==> EscapeChar(c) == [c]
  {
    hide EscapeUnit;
    if c >= 0x1_0000 {
      var high, low := PairOf(c);
      UnitIsAscii(high);
      UnitIsAscii(low);
      hide EscapeChar;
    } else {
      UnitIsAscii(c);
    }
  }

  /** `\u` and the four lower-case hexadecimal digits that spell the unit. */
  lemma UnitIsAscii(u: CodePoint)
    requires u < 0x1_0000
    ensures |EscapeUnit(u)| == 6 && forall i :: 0 <= i < 6 ==> 0x20 <= EscapeUnit(u)[i] <= 0x7E
    ensures forall i :: 2 <= i < 6 ==> '0' as int <= EscapeUnit(u)[i] <= '9' as int || 'a' as int <= EscapeUnit(u)[i] <= 'f' as int
  {
  }

  predicate SpellsUnit(escape: Text, u: CodePoint) {
    && |escape| == 6 && escape[..2] == ['\\' as int, 'u' as int]
    && IsHex4(escape[2..]) && HexNumber(escape[2..]) == u
  }

  lemma UnitIsSpelled(u: CodePoint)
    requires u < 0x1_0000
    ensures SpellsUnit(EscapeUnit(u), u)
  {
    Hex4Spells(ToHex4(u));
    assert EscapeUnit(u)[2..] == ToHex4(u);
  }

  /**
   A character with a simple escape is written as that, the slash excepted; a printable ASCII one as it
   is; any other as its hexadecimal escape, or as those of the surrogate pair that stands for it.
   */
  lemma EscapedCharIs(c: CodePoint)
    ensures forall written :: SimpleEscape(written, c) && c != '/' as int ==> EscapeChar(c) == ['\\' as int, written]
    ensures (forall written :: SimpleEscape(written, c) ==> c == '/' as int) ==>
              if 0x20 <= c <= 0x7E then EscapeChar(c) == [c]
              else if c < 0x1_0000 then SpellsUnit(EscapeChar(c), c)
              else exists high: CodePoint, low: CodePoint ::
                && 0xD800 <= high <= 0xDBFF && 0xDC00 <= low <= 0xDFFF && c == 0x1_0000 + (high - 0xD800) * 0x400 + (low - 0xDC00)
                && SpellsUnit(EscapeChar(c)[..6], high) && SpellsUnit(EscapeChar(c)[6..], low) && |EscapeChar(c)| == 12
  {
    if written: CodePoint :| SimpleEscape(written, c) && c != '/' as int {
      forall w | SimpleEscape(w, c) ensures EscapeChar(c) == ['\\' as int, w] { SimplyEscaped(w, c); }
    } else {
      NoSimpleEscape(c);
      if c >= 0x1_0000 { EscapedAsPair(c); }
    }
    hide EscapeChar, SimpleEscape, SpellsUnit;
  }

  lemma SimplyEscaped(written: CodePoint, c: CodePoint)
    requires SimpleEscape(written, c) && c != '/' as int
    ensures EscapeChar(c) == ['\\' as int, written]
  {
  }

  lemma NoSimpleEscape(c: CodePoint)
    requires forall written :: SimpleEscape(written, c) ==> c == '/' as int
    ensures 0x20 <= c <= 0x7E ==> EscapeChar(c) == [c]
    ensures !(0x20 <= c <= 0x7E) && c < 0x1_0000 ==> SpellsUnit(EscapeChar(c), c)
  {
    assert SimpleEscape('"' as int, 0x22) && SimpleEscape('\\' as int, 0x5C) && SimpleEscape('b' as int, 0x08);
    assert SimpleEscape('f' as int, 0x0C) && SimpleEscape('n' as int, 0x0A) && SimpleEscape('r' as int, 0x0D) && SimpleEscape('t' as int, 0x09);
    assert c != 0x22 && c != 0x5C && c != 0x08 && c != 0x0C && c != 0x0A && c != 0x0D && c != 0x09;
    hide SimpleEscape, SpellsUnit, EscapeUnit;
    if c < 0x1_0000 { UnitIsSpelled(c); }
  }

  lemma PairOf(c: CodePoint) returns (high: CodePoint, low: CodePoint)
    requires c >= 0x1_0000
    ensures 0xD800 <= high <= 0xDBFF && 0xDC00 <= low <= 0xDFFF && c == 0x1_0000 + (high - 0xD800) * 0x400 + (low - 0xDC00)
    ensures EscapeChar(c) == EscapeUnit(high) + EscapeUnit(low)
  {
    hide EscapeUnit;
    high, low := 0xD800 + (c - 0x1_0000) / 0x400, 0xDC00 + (c - 0x1_0000) % 0x400;
  }

  lemma EscapedAsPair(c: CodePoint)
    requires c >= 0x1_0000
    ensures exists high: CodePoint, low: CodePoint ::
              && 0xD800 <= high <= 0xDBFF && 0xDC00 <= low <= 0xDFFF && c == 0x1_0000 + (high - 0xD800) * 0x400 + (low - 0xDC00)
              && SpellsUnit(EscapeChar(c)[..6], high) && SpellsUnit(EscapeChar(c)[6..], low) && |EscapeChar(c)| == 12
  {
    var high, low := PairOf(c);
    UnitIsSpelled(high);
    UnitIsSpelled(low);
    assert |EscapeUnit(high)| == 6 && |EscapeUnit(low)| == 6;
    hide EscapeUnit, SpellsUnit, EscapeChar;
    assert EscapeChar(c)[..6] == EscapeUnit(high) && EscapeChar(c)[6..] == EscapeUnit(low);
  }

  /** A printed string is its characters, each escaped, between two quotes. */
  lemma {:induction false} StringLayout(t: Text)
    ensures DumpsString(t) == Lit("\"") + Joined(seq(|t|, i requires 0 <= i < |t| => EscapeChar(t[i])), []) + Lit("\"")
  {
    EscapedOneByOne(t, seq(|t|, i requires 0 <= i < |t| => EscapeChar(t[i])));
    assert Lit("\"") == [QUOTE];
  }

  lemma {:induction false} EscapedOneByOne(t: Text, parts: seq<Text>)
    requires |parts| == |t| && forall i :: 0 <= i < |t| ==> parts[i] == EscapeChar(t[i])
    ensures Escape(t) == Joined(parts, [])
    decreases t
  {
    hide EscapeChar;
    if t != [] {
      EscapedOneByOne(t[1..], parts[1..]);
      RightEmpty(parts[0]);
    }
  }
}
