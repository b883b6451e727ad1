/** `json.loads` reads nothing but the legal texts of JSON: with `LoadsLegalText`, exactly those. */
module JsonReading {
  import opened PyText
  import opened Sequences
  import opened Json
  import opened JsonLoads
  import opened JsonSyntax
  import opened ArgumentStreamer

  /** White space is a space, a tab, a line feed or a carriage return (section 2 of RFC 8259). */
  lemma WhiteSpace(c: CodePoint)
    ensures IsWs(c) <==> c in {' ' as int, '\t' as int, '\n' as int, '\r' as int}
  {
  }

  lemma {:induction false} SkippedIsPadding(t: Text) returns (pad: Padding)
    ensures t == pad + SkipWs(t)
    decreases t
  {
    pad := [];
    if t != [] && IsWs(t[0]) {
      var rest := SkippedIsPadding(t[1..]);
      pad := [t[0]] + rest;
    }
  }

  lemma {:induction false} ReadsItems(t: Text)
    requires ScanItems(t).Ok?
    ensures t == ItemsText(ScanItems(t).value) + [QUOTE] + ScanItems(t).rest
    decreases |t|
  {
    if t[0] == QUOTE {
      assert t == [QUOTE] + t[1..];
    } else {
      var n := if t[0] != BACKSLASH then 1 else if IsSimpleEscape(t[1]) then 2 else 6;
      ReadsItems(t[n..]);
      var items, tail := ScanItems(t).value, ScanItems(t[n..]);
      assert items == [items[0]] + tail.value && items[1..] == tail.value;
      assert ItemText(items[0]) == t[..n];
      hide ScanItems, ItemText, ItemsText;
      ItemsCons(items);
      Rejoined(t[..n], ItemsText(tail.value), tail.rest);
      assert t == t[..n] + t[n..];
    }
  }

  lemma ItemsCons(items: seq<StringItem>)
    requires items != []
    ensures ItemsText(items) == ItemText(items[0]) + ItemsText(items[1..])
  {
  }

  lemma Rejoined(head: Text, items: Text, rest: Text)
    ensures head + (items + [QUOTE] + rest) == head + items + [QUOTE] + rest
  {
  }

  lemma NumberIsNum(word: Text)
    requires IsNumber(word)
    ensures WordValue(word) == Num(word)
  {
    hide IsFractionAndExponent, NumberChar;
    assert word[0] == 0x2D || IsDigit(word[0]);
  }

  lemma ReadsScalar(t: Text) returns (word: Word)
    requires ParseScalar(t).Ok?
    ensures t == word + ParseScalar(t).rest && ParseScalar(t).value == WordValue(word)
  {
    var n := NumberRun(t);
    if IsNumber(t[..n]) {
      NumberIsNum(t[..n]);
      hide IsNumber, NumberRun, WordValue;
      word := t[..n];
      assert ParseScalar(t) == Ok(Num(word), t[n..]);
    } else {
      word := ReadsWord(t);
    }
  }

  lemma WordFrom(first: CodePoint) returns (word: Word)
    ensures word == if first == 0x6E then Lit("null")
                    else if first == 0x74 then Lit("true")
                    else if first == 0x66 then Lit("false")
                    else if first == 0x4E then Lit("NaN")
                    else if first == 0x49 then Lit("Infinity")
                    else Lit("-Infinity")
    ensures WordValue(word) ==
            if first == 0x6E then Null else if first == 0x74 then Bool(true) else if first == 0x66 then Bool(false) else Num(word)
  {
    hide IsNumber;
    word := if first == 0x6E then Lit("null")
            else if first == 0x74 then Lit("true")
            else if first == 0x66 then Lit("false")
            else if first == 0x4E then Lit("NaN")
            else if first == 0x49 then Lit("Infinity")
            else Lit("-Infinity");
    assert word[0] != 0x6E || first == 0x6E;
    assert word[0] != 0x74 || first == 0x74;
    assert word[0] != 0x66 || first == 0x66;
  }

  lemma ReadsWord(t: Text) returns (word: Word)
    requires ParseScalar(t).Ok? && !IsNumber(t[..NumberRun(t)])
    ensures t == word + ParseScalar(t).rest && ParseScalar(t).value == WordValue(word)
  {
    hide IsNumber, NumberRun, WordValue, IsWord;
    word := WordFrom(t[0]);
    assert HasPrefix(t, word) && ParseScalar(t).rest == t[|word|..];
  }

  // --- padding before the first -------------------------------------------

  function PadElems(pad: Padding, es: Elems): (r: Elems)
    ensures ElemValues(r) == ElemValues(es)
  {
    var e := Elem(pad + es.e.before, es.e.value, es.e.after);
    match es
    case OneElem(_) => OneElem(e)
    case MoreElems(_, rest) => MoreElems(e, rest)
  }

  lemma PaddedElems(pad: Padding, es: Elems)
    ensures ElemsText(PadElems(pad, es)) == pad + ElemsText(es)
  {
    var e := PadElems(pad, es).e;
    ElemPadded(pad, es.e);
    hide ElemText;
    if es.MoreElems? { BeforeComma(pad, ElemText(es.e), ElemsText(es.rest)); }
  }

  lemma ElemPadded(pad: Padding, e: Elem)
    ensures ElemText(Elem(pad + e.before, e.value, e.after)) == pad + ElemText(e)
  {
    hide SyntaxText;
    var value := SyntaxText(e.value);
    assert pad + e.before + value + e.after == pad + (e.before + value + e.after);
  }

  lemma BeforeComma(pad: Text, first: Text, rest: Text)
    ensures pad + first + [COMMA] + rest == pad + (first + [COMMA] + rest)
  {
  }

  function PadMembers(pad: Padding, ms: Members): (r: Members)
    ensures MemberValues(r) == MemberValues(ms)
  {
    var m := ms.m.(before := pad + ms.m.before);
    match ms
    case OneMember(_) => OneMember(m)
    case MoreMembers(_, rest) => MoreMembers(m, rest)
  }

  lemma PaddedMembers(pad: Padding, ms: Members)
    ensures MembersText(PadMembers(pad, ms)) == pad + MembersText(ms)
  {
    var m := PadMembers(pad, ms).m;
    EntryFrom(m);
    EntryFrom(ms.m);
    hide EntryText;
    assert EntryText(m) == pad + EntryText(ms.m);
    if ms.MoreMembers? { BeforeComma(pad, EntryText(ms.m), MembersText(ms.rest)); }
  }

  lemma EntryFrom(m: Entry)
    ensures EntryText(m) == m.before + EntryText(m.(before := []))
  {
    hide LiteralText, SyntaxText;
    PaddingFirst(m.before, LiteralText(m.key), m.beforeColon, m.afterColon, SyntaxText(m.value), m.after);
  }

  lemma PaddingFirst(before: Text, key: Text, beforeColon: Text, afterColon: Text, value: Text, after: Text)
    ensures before + key + beforeColon + [COLON] + afterColon + value + after
         == before + ([] + key + beforeColon + [COLON] + afterColon + value + after)
  {
  }

  // --- values -------------------------------------------------------------

  lemma {:induction false} ReadsValue(t: Text) returns (s: Syntax)
    requires ParseValue(t).Ok?
    ensures t == SyntaxText(s) + ParseValue(t).rest && ParseValue(t).value == SyntaxValue(s)
    decreases |t|, 0
  {
    hide ScanItems, ParseScalar, ParseElems, ParseMembers, SkipWs;
    var rest := ParseValue(t).rest;
    assert t == [t[0]] + t[1..];
    if t[0] == QUOTE {
      ReadsItems(t[1..]);
      s := Literal(ScanItems(t[1..]).value);
      assert t == LiteralText(s.items) + rest;
    } else if t[0] == LBRACE {
      var pad := SkippedIsPadding(t[1..]);
      var t1 := SkipWs(t[1..]);
      if t1 != [] && t1[0] == RBRACE {
        s := EmptyObject(pad);
        assert t == [LBRACE] + pad + [RBRACE] + rest;
      } else {
        var ms := ReadsMembers(t1);
        s := Object(PadMembers(pad, ms));
        PaddedMembers(pad, ms);
        Bracketed(LBRACE, pad, MembersText(ms), RBRACE, rest);
      }
    } else if t[0] == LBRACKET {
      var pad := SkippedIsPadding(t[1..]);
      var t1 := SkipWs(t[1..]);
      if t1 != [] && t1[0] == RBRACKET {
        s := EmptyArray(pad);
        assert t == [LBRACKET] + pad + [RBRACKET] + rest;
      } else {
        var es := ReadsElems(t1);
        s := Array(PadElems(pad, es));
        PaddedElems(pad, es);
        Bracketed(LBRACKET, pad, ElemsText(es), RBRACKET, rest);
      }
    } else {
      var word := ReadsScalar(t);
      s := Scalar(word);
    }
  }

  lemma Bracketed(open: CodePoint, pad: Text, inner: Text, shut: CodePoint, rest: Text)
    ensures [open] + (pad + (inner + [shut] + rest)) == [open] + (pad + inner) + [shut] + rest
  {
  }

  lemma {:induction false} ReadsElems(t: Text) returns (es: Elems)
    requires ParseElems(t).Ok?
    ensures t == ElemsText(es) + [RBRACKET] + ParseElems(t).rest && ParseElems(t).value == ElemValues(es)
    decreases |t|, 1
  {
    hide ParseValue, SkipWs;
    var s := ReadsValue(t);
    var rest := ParseValue(t).rest;
    var after := SkippedIsPadding(rest);
    var t1 := SkipWs(rest);
    var e := Elem([], s, after);
    assert ElemText(e) == SyntaxText(s) + after by { LeftEmpty(SyntaxText(s)); }
    assert t == ElemText(e) + t1 by { Associative(SyntaxText(s), after, t1); }
    assert t1 == [t1[0]] + t1[1..];
    if t1[0] == RBRACKET {
      es := OneElem(e);
      Associative(ElemText(e), [RBRACKET], t1[1..]);
    } else {
      var pad := SkippedIsPadding(t1[1..]);
      var more := ReadsElems(SkipWs(t1[1..]));
      es := MoreElems(e, PadElems(pad, more));
      PaddedElems(pad, more);
      AfterComma(ElemText(e), pad, ElemsText(more), RBRACKET, ParseElems(t).rest);
    }
  }

  lemma AfterComma(first: Text, pad: Text, more: Text, shut: CodePoint, rest: Text)
    ensures first + ([COMMA] + (pad + (more + [shut] + rest))) == first + [COMMA] + (pad + more) + [shut] + rest
  {
  }

  lemma {:induction false} ReadsMember(t: Text) returns (m: Entry)
    requires ParseMember(t).Ok?
    ensures m.before == [] && m.after == []
    ensures t == EntryText(m) + ParseMember(t).rest && ParseMember(t).value == EntryValue(m)
    decreases |t|, 0
  {
    hide ScanItems, ParseValue, SkipWs;
    ReadsItems(t[1..]);
    var key, rest := ScanItems(t[1..]).value, ScanItems(t[1..]).rest;
    var beforeColon := SkippedIsPadding(rest);
    var t1 := SkipWs(rest);
    var afterColon := SkippedIsPadding(t1[1..]);
    var value := ReadsValue(SkipWs(t1[1..]));
    m := Entry([], key, beforeColon, afterColon, value, []);
    assert t == [QUOTE] + t[1..] && t1 == [COLON] + t1[1..];
    EntryTextSplit(m, ParseMember(t).rest);
    hide EntryText, ItemsText, SyntaxText;
    WithoutPadding(ItemsText(key), beforeColon, afterColon, SyntaxText(value), ParseMember(t).rest);
  }

  lemma WithoutPadding(key: Text, beforeColon: Text, afterColon: Text, value: Text, rest: Text)
    ensures [QUOTE] + (key + [QUOTE] + (beforeColon + ([COLON] + (afterColon + (value + rest))))) ==
            [] + ([QUOTE] + (key + [QUOTE] + (beforeColon + ([COLON] + (afterColon + (value + ([] + rest)))))))
  {
  }

  lemma EntryPadded(m: Entry, after: Padding)
    requires m.after == []
    ensures EntryText(m.(after := after)) == EntryText(m) + after
    ensures EntryValue(m.(after := after)) == EntryValue(m)
  {
    var head := m.before + LiteralText(m.key) + m.beforeColon + [COLON] + m.afterColon + SyntaxText(m.value);
    RightEmpty(head);
  }

  lemma {:induction false} ReadsMembers(t: Text) returns (ms: Members)
    requires ParseMembers(t).Ok?
    ensures t == MembersText(ms) + [RBRACE] + ParseMembers(t).rest && ParseMembers(t).value == MemberValues(ms)
    decreases |t|, 1
  {
    hide ParseMember, SkipWs, EntryText;
    var read := ReadsMember(t);
    var rest := ParseMember(t).rest;
    var after := SkippedIsPadding(rest);
    var t1 := SkipWs(rest);
    var m := read.(after := after);
    EntryPadded(read, after);
    assert t == EntryText(m) + t1 by { Associative(EntryText(read), after, t1); }
    assert t1 == [t1[0]] + t1[1..];
    if t1[0] == RBRACE {
      ms := OneMember(m);
      Associative(EntryText(m), [RBRACE], t1[1..]);
    } else {
      var pad := SkippedIsPadding(t1[1..]);
      var more := ReadsMembers(SkipWs(t1[1..]));
      ms := MoreMembers(m, PadMembers(pad, more));
      PaddedMembers(pad, more);
      AfterComma(EntryText(m), pad, MembersText(more), RBRACE, ParseMembers(t).rest);
    }
  }

  // --- whole texts --------------------------------------------------------

  /** A text is legal and stands for this value. */
  ghost predicate Spells(t: Text, v: Json) {
    exists before: Padding, s: Syntax, after: Padding :: t == before + SyntaxText(s) + after && v == SyntaxValue(s)
  }

  /** Loading succeeds with a value exactly on the legal texts that stand for it. */
  lemma LoadsExactlyLegalText(t: Text, v: Json)
    ensures Loads(t) == Ok(v, []) <==> Spells(t, v)
    ensures Loads(t).Fail? <==> forall w :: !Spells(t, w)
  {
    forall w | Spells(t, w) ensures Loads(t) == Ok(w, []) {
      var before: Padding, s: Syntax, after: Padding :| t == before + SyntaxText(s) + after && w == SyntaxValue(s);
      LoadsLegalText(before, s, after);
    }
    if Loads(t).Ok? { SpelledWhenLoaded(t); }
    hide Spells;
  }

  lemma SpelledWhenLoaded(t: Text)
    requires Loads(t).Ok?
    ensures Spells(t, Loads(t).value) && Loads(t).rest == []
  {
    hide ParseValue, SkipWs, SyntaxText, SyntaxValue;
    var before := SkippedIsPadding(t);
    var s := ReadsValue(SkipWs(t));
    var after := SkippedIsPadding(ParseValue(SkipWs(t)).rest);
    RightEmpty(after);
    Associative(before, SyntaxText(s), after);
    assert t == before + SyntaxText(s) + after;
  }

  /** A finished raw value is the value its text stands for, and the text itself exactly when it stands for none. */
  lemma RawIsLoadedOrKept(raw: Text)
    ensures forall v :: Spells(raw, v) ==> RawValue(raw) == v
    ensures (forall v :: !Spells(raw, v)) ==> RawValue(raw) == Str(raw)
  {
    forall v ensures Loads(raw) == Ok(v, []) <==> Spells(raw, v) {
      LoadsExactlyLegalText(raw, v);
    }
    LoadsExactlyLegalText(raw, Null);
  }
}
