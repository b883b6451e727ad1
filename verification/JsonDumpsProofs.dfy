/** Laws of `json.dumps`: escaping is character by character, reindenting is printing one level deeper, every printed value has a concrete syntax. */
module JsonDumpsProofs {
  import opened PyText
  import opened Sequences
  import opened Json
  import opened JsonLoads
  import opened JsonSyntax
  import opened ArgumentStreamerProofs
  import opened ArgumentPresenter

  lemma {:induction false} EscapeConcat(a: Text, b: Text)
    ensures Escape(a + b) == Escape(a) + Escape(b)
  {
    if a == [] {
      assert a + b == b;
    } else {
      assert (a + b)[1..] == a[1..] + b;
      EscapeConcat(a[1..], b);
    }
  }

  /** No line break inside. */
  predicate OneLine(t: Text) { forall i :: 0 <= i < |t| ==> t[i] != NEWLINE }

  lemma {:induction false} ReindentConcat(a: Text, b: Text)
    ensures Reindent(a + b) == Reindent(a) + Reindent(b)
  {
    if a == [] {
      assert a + b == b;
    } else {
      assert (a + b)[1..] == a[1..] + b;
      ReindentConcat(a[1..], b);
    }
  }

  lemma {:induction false} ReindentOneLine(t: Text)
    requires OneLine(t)
    ensures Reindent(t) == t
  {
    if t != [] {
      ReindentOneLine(t[1..]);
    }
  }

  lemma {:induction false} IndentOneLine(level: nat)
    ensures OneLine(Indent(level))
    ensures Lit("    ") + Indent(level) == Indent(level + 1)
  {
    if level > 0 { IndentOneLine(level - 1); }
  }

  lemma ReindentBreak(level: nat)
    ensures Reindent(Break(level)) == Break(level + 1)
  {
    IndentOneLine(level);
    IndentOneLine(0);
    ReindentOneLine(Indent(level));
    assert Break(level)[1..] == Indent(level);
    assert Indent(1) == Lit("    ") + Indent(0);
    assert Lit("    ") + [] == Lit("    ");
  }

  lemma EscapeCharOneLine(c: CodePoint)
    ensures OneLine(EscapeChar(c))
  {
  }

  lemma {:induction false} EscapeOneLine(t: Text)
    ensures OneLine(Escape(t))
  {
    if t != [] {
      EscapeOneLine(t[1..]);
      EscapeCharOneLine(t[0]);
      hide EscapeChar;
    }
  }

  lemma ScalarOneLine(v: Json)
    requires v.Null? || v.Bool? || v.Num? || v.Str?
    ensures forall level: nat :: OneLine(Dumps(v, level))
  {
    match v {
      case Num(n) => WordIsScalar(NumberText(n));
      case Str(t) => EscapeOneLine(t);
      case _ =>
    }
  }

  /** Replacing every newline by a newline and four spaces prints the value one level deeper. */
  lemma {:induction false} ReindentDumps(v: Json, level: nat)
    ensures Reindent(Dumps(v, level)) == Dumps(v, level + 1)
    decreases v, 1
  {
    match v {
      case Arr(elems) =>
        if elems == [] {
          ReindentOneLine(Lit("[]"));
        } else {
          ReindentElems(elems, level + 1);
          ReindentWrapped(LBRACKET, DumpsElems(elems, level + 1), level, RBRACKET);
        }
      case Obj(members) =>
        if members == [] {
          ReindentOneLine(Lit("{}"));
        } else {
          ReindentMembers(members, level + 1);
          ReindentWrapped(LBRACE, DumpsMembers(members, level + 1), level, RBRACE);
        }
      case _ =>
        ScalarOneLine(v);
        ReindentOneLine(Dumps(v, level));
    }
  }

  lemma ReindentWrapped(open: CodePoint, inner: Text, level: nat, shut: CodePoint)
    requires open != NEWLINE && shut != NEWLINE
    ensures Reindent([open] + inner + Break(level) + [shut]) == [open] + Reindent(inner) + Break(level + 1) + [shut]
  {
    ReindentConcat([open] + inner + Break(level), [shut]);
    ReindentConcat([open] + inner, Break(level));
    ReindentConcat([open], inner);
    ReindentBreak(level);
    ReindentOneLine([open]);
    ReindentOneLine([shut]);
  }

  lemma {:induction false} ReindentElems(elems: seq<Json>, level: nat)
    ensures Reindent(DumpsElems(elems, level)) == DumpsElems(elems, level + 1)
    decreases elems, 0
  {
    if elems != [] {
      var first := Break(level) + Dumps(elems[0], level);
      ReindentDumps(elems[0], level);
      ReindentBreak(level);
      ReindentConcat(Break(level), Dumps(elems[0], level));
      ReindentElems(elems[1..], level);
      ReindentOneLine(CommaIf(|elems| > 1));
      ReindentConcat(first, CommaIf(|elems| > 1));
      ReindentConcat(first + CommaIf(|elems| > 1), DumpsElems(elems[1..], level));
    }
  }

  lemma {:induction false} ReindentMember(m: Member, level: nat)
    ensures Reindent(DumpsMember(m, level)) == DumpsMember(m, level + 1)
    decreases m, 0
  {
    hide Reindent, Dumps, Escape;
    var key := DumpsString(m.key) + Lit(": ");
    EscapeOneLine(m.key);
    ReindentOneLine(key);
    ReindentDumps(m.value, level);
    ReindentConcat(key, Dumps(m.value, level));
  }

  lemma {:induction false} ReindentMembers(members: seq<Member>, level: nat)
    ensures Reindent(DumpsMembers(members, level)) == DumpsMembers(members, level + 1)
    decreases members, 0
  {
    if members != [] {
      var first := Break(level) + DumpsMember(members[0], level);
      ReindentMember(members[0], level);
      ReindentBreak(level);
      ReindentConcat(Break(level), DumpsMember(members[0], level));
      ReindentMembers(members[1..], level);
      ReindentOneLine(CommaIf(|members| > 1));
      ReindentConcat(first, CommaIf(|members| > 1));
      ReindentConcat(first + CommaIf(|members| > 1), DumpsMembers(members[1..], level));
    }
  }

  lemma {:induction false} DumpsMembersSnoc(ms: seq<Member>, m: Member, level: nat)
    ensures DumpsMembers(ms + [m], level) ==
            DumpsMembers(ms, level) + CommaIf(ms != []) + (Break(level) + DumpsMember(m, level))
    decreases ms
  {
    var sum := ms + [m];
    if ms == [] {
      assert sum == [m] && sum[1..] == [];
    } else {
      assert sum[0] == ms[0] && sum[1..] == ms[1..] + [m];
      DumpsMembersSnoc(ms[1..], m, level);
      var first := Break(level) + DumpsMember(ms[0], level);
      var rest, last := DumpsMembers(ms[1..], level), Break(level) + DumpsMember(m, level);
      Regroup(first, CommaIf(|ms| > 1), rest, last);
      assert CommaIf(ms != []) == [COMMA];
      if |ms| == 1 {
        assert ms[1..] == [] && rest == [];
      }
    }
  }

  lemma Regroup(first: Text, comma: Text, rest: Text, last: Text)
    requires comma == [COMMA] || (comma == [] && rest == [])
    ensures first + [COMMA] + (rest + comma + last) == first + comma + rest + [COMMA] + last
  {
  }

  // --- escaped surrogate pairs print the same -----------------------------

  lemma PairPrints(high: nat, low: nat)
    requires 0xD800 <= high <= 0xDBFF && 0xDC00 <= low <= 0xDFFF
    ensures EscapeChar(0x1_0000 + (high - 0xD800) * 0x400 + (low - 0xDC00)) == EscapeChar(high) + EscapeChar(low)
  {
    var c := 0x1_0000 + (high - 0xD800) * 0x400 + (low - 0xDC00);
    assert (c - 0x1_0000) / 0x400 == high - 0xD800 && (c - 0x1_0000) % 0x400 == low - 0xDC00;
  }

  lemma PairStep(high: nat, low: nat, units: Text, joined: Text)
    requires 0xD800 <= high <= 0xDBFF && 0xDC00 <= low <= 0xDFFF
    requires Escape(units) == Escape(joined)
    ensures Escape([high] + ([low] + units)) == Escape([0x1_0000 + (high - 0xD800) * 0x400 + (low - 0xDC00)] + joined)
  {
    hide Escape, EscapeChar;
    var c := 0x1_0000 + (high - 0xD800) * 0x400 + (low - 0xDC00);
    PairPrints(high, low);
    EscapeCons(high, [low] + units);
    EscapeCons(low, units);
    EscapeCons(c, joined);
    Associative(EscapeChar(high), EscapeChar(low), Escape(units));
  }

  lemma EscapeCons(c: CodePoint, rest: Text)
    ensures Escape([c] + rest) == EscapeChar(c) + Escape(rest)
  {
    hide EscapeChar;
    assert ([c] + rest)[1..] == rest;
  }

  lemma TwoUnits(items: seq<StringItem>)
    requires |items| >= 2
    ensures Units(items) == [Unit(items[0])] + ([Unit(items[1])] + Units(items[2..]))
  {
    assert items[1..][0] == items[1] && items[1..][1..] == items[2..];
  }

  /** Joining escaped surrogate pairs does not show in the printed text. */
  lemma {:induction false} PairsPrintAlike(items: seq<StringItem>)
    ensures Escape(Units(items)) == Escape(StringValue(items))
    decreases |items|
  {
    hide EscapeChar;
    if items == [] {
    } else if PairAt(items, 0) {
      PairsPrintAlike(items[2..]);
      PairStep(Hex4(items[0].hex), Hex4(items[1].hex), Units(items[2..]), StringValue(items[2..]));
      TwoUnits(items);
    } else {
      PairsPrintAlike(items[1..]);
      EscapeConcat([Unit(items[0])], Units(items[1..]));
      EscapeConcat([Unit(items[0])], StringValue(items[1..]));
    }
  }

  // --- the printed text is legal ------------------------------------------

  function CharItems(c: CodePoint): (items: seq<StringItem>)
    ensures ItemsText(items) == EscapeChar(c)
  {
    var items: seq<StringItem> :=
      if c == QUOTE || c == BACKSLASH then [Escaped(c)]
      else if c == 0x08 then [Escaped(0x62)]
      else if c == 0x0C then [Escaped(0x66)]
      else if c == 0x0A then [Escaped(0x6E)]
      else if c == 0x0D then [Escaped(0x72)]
      else if c == 0x09 then [Escaped(0x74)]
      else if 0x20 <= c <= 0x7E then [Plain(c)]
      else if c < 0x1_0000 then [Unicode(ToHex4(c))]
      else [Unicode(ToHex4(0xD800 + (c - 0x1_0000) / 0x400)), Unicode(ToHex4(0xDC00 + (c - 0x1_0000) % 0x400))];
    assert ItemsText(items) == EscapeChar(c) by {
      assert items[1..] == [] || items[1..] == [items[1]];
      assert |items| == 2 ==> items[1..][1..] == [];
      assert ItemsText([]) == [];
    }
    items
  }

  lemma {:induction false} ItemsTextConcat(a: seq<StringItem>, b: seq<StringItem>)
    ensures ItemsText(a + b) == ItemsText(a) + ItemsText(b)
    decreases a
  {
    if a == [] {
      assert a + b == b;
    } else {
      assert (a + b)[1..] == a[1..] + b;
      ItemsTextConcat(a[1..], b);
    }
  }

  function {:induction false} EscapeItems(t: Text): (items: seq<StringItem>)
    ensures ItemsText(items) == Escape(t)
  {
    if t == [] then []
    else
      ItemsTextConcat(CharItems(t[0]), EscapeItems(t[1..]));
      CharItems(t[0]) + EscapeItems(t[1..])
  }

  lemma {:induction false} BreakIsPadding(level: nat)
    ensures IsPadding(Break(level))
    decreases level
  {
    if level > 0 {
      BreakIsPadding(level - 1);
      assert Break(level) == [NEWLINE] + Lit("    ") + Break(level - 1)[1..];
    }
  }

  lemma Wrap(open: CodePoint, inner: Text, last: Text, shut: CodePoint)
    ensures [open] + (inner + last) + [shut] == [open] + inner + last + [shut]
  {
  }

  /** The concrete syntax of the printed value. */
  function {:induction false} DumpsSyntax(v: Json, level: nat): (s: Syntax)
    ensures SyntaxText(s) == Dumps(v, level)
    ensures v.Obj? <==> s.EmptyObject? || s.Object?
    decreases v, 1
  {
    match v
    case Null => Scalar(Lit("null"))
    case Bool(b) => Scalar(if b then Lit("true") else Lit("false"))
    case Num(n) => Scalar(NumberText(n))
    case Str(t) => Literal(EscapeItems(t))
    case Arr(elems) =>
      if elems == [] then EmptyArray([])
      else
        BreakIsPadding(level);
        Wrap(LBRACKET, DumpsElems(elems, level + 1), Break(level), RBRACKET);
        Array(ElemsSyntax(elems, level + 1, Break(level)))
    case Obj(members) =>
      if members == [] then EmptyObject([])
      else
        BreakIsPadding(level);
        Wrap(LBRACE, DumpsMembers(members, level + 1), Break(level), RBRACE);
        Object(MembersSyntax(members, level + 1, Break(level)))
  }

  function {:induction false} ElemsSyntax(elems: seq<Json>, level: nat, last: Padding): (es: Elems)
    requires elems != []
    ensures ElemsText(es) == DumpsElems(elems, level) + last
    decreases elems, 0
  {
    BreakIsPadding(level);
    if |elems| == 1 then OneElem(Elem(Break(level), DumpsSyntax(elems[0], level), last))
    else MoreElems(Elem(Break(level), DumpsSyntax(elems[0], level), []), ElemsSyntax(elems[1..], level, last))
  }

  lemma SpaceAfterColon(before: Text, key: Text, value: Text, last: Text)
    ensures before + key + [] + [COLON] + [0x20] + value + last == before + (key + Lit(": ") + value) + last
  {
    assert [COLON] + [0x20] == Lit(": ");
  }

  function {:induction false} EntrySyntax(m: Member, level: nat, last: Padding): (e: Entry)
    ensures EntryText(e) == Break(level) + DumpsMember(m, level) + last
    decreases m, 0
  {
    BreakIsPadding(level);
    SpaceAfterColon(Break(level), DumpsString(m.key), Dumps(m.value, level), last);
    Entry(Break(level), EscapeItems(m.key), [], [0x20], DumpsSyntax(m.value, level), last)
  }

  function {:induction false} MembersSyntax(members: seq<Member>, level: nat, last: Padding): (ms: Members)
    requires members != []
    ensures MembersText(ms) == DumpsMembers(members, level) + last
    decreases members, 0
  {
    if |members| == 1 then OneMember(EntrySyntax(members[0], level, last))
    else
      assert Break(level) + DumpsMember(members[0], level) + [] == Break(level) + DumpsMember(members[0], level);
      MoreMembers(EntrySyntax(members[0], level, []), MembersSyntax(members[1..], level, last))
  }
}
