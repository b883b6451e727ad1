/** The legal texts of JSON (RFC 8259) as concrete syntax trees, and what `json.loads` makes of them. */
module JsonSyntax {
  import opened PyText
  import opened Json
  import opened JsonLoads

  predicate IsPadding(t: Text) { forall i :: 0 <= i < |t| ==> IsWs(t[i]) }

  type Padding = t: Text | IsPadding(t)

  predicate IsWord(t: Text) {
    t == Lit("null") || t == Lit("true") || t == Lit("false") || IsNumber(t) || IsFloatWord(t)
  }

  /** `null`, `true`, `false` or a numeral. */
  type Word = t: Text | IsWord(t) witness [0x30]

  datatype Syntax =
    | Scalar(word: Word)
    | Literal(items: seq<StringItem>)
    | EmptyArray(pad: Padding)
    | Array(elems: Elems)
    | EmptyObject(pad: Padding)
    | Object(members: Members)

  datatype Elem = Elem(before: Padding, value: Syntax, after: Padding)

  datatype Elems = OneElem(e: Elem) | MoreElems(e: Elem, rest: Elems)

  datatype Entry = Entry(before: Padding, key: seq<StringItem>, beforeColon: Padding, afterColon: Padding, value: Syntax, after: Padding)

  datatype Members = OneMember(m: Entry) | MoreMembers(m: Entry, rest: Members)

  // --- the text -----------------------------------------------------------

  function ItemText(item: StringItem): (t: Text)
    ensures t != []
  {
    match item
    case Plain(c) => [c]
    case Escaped(c) => [BACKSLASH, c]
    case Unicode(hex) => [BACKSLASH, LOWER_U] + hex
  }

  function ItemsText(items: seq<StringItem>): Text {
    if items == [] then [] else ItemText(items[0]) + ItemsText(items[1..])
  }

  function LiteralText(items: seq<StringItem>): Text {
    [QUOTE] + ItemsText(items) + [QUOTE]
  }

  function SyntaxText(s: Syntax): Text
    decreases s
  {
    match s
    case Scalar(word) => word
    case Literal(items) => LiteralText(items)
    case EmptyArray(pad) => [LBRACKET] + pad + [RBRACKET]
    case Array(elems) => [LBRACKET] + ElemsText(elems) + [RBRACKET]
    case EmptyObject(pad) => [LBRACE] + pad + [RBRACE]
    case Object(members) => [LBRACE] + MembersText(members) + [RBRACE]
  }

  function ElemText(e: Elem): Text
    decreases e
  {
    e.before + SyntaxText(e.value) + e.after
  }

  function ElemsText(es: Elems): Text
    decreases es
  {
    match es
    case OneElem(e) => ElemText(e)
    case MoreElems(e, rest) => ElemText(e) + [COMMA] + ElemsText(rest)
  }

  function EntryText(m: Entry): Text
    decreases m
  {
    m.before + LiteralText(m.key) + m.beforeColon + [COLON] + m.afterColon + SyntaxText(m.value) + m.after
  }

  function MembersText(ms: Members): Text
    decreases ms
  {
    match ms
    case OneMember(m) => EntryText(m)
    case MoreMembers(m, rest) => EntryText(m) + [COMMA] + MembersText(rest)
  }

  // --- the value ----------------------------------------------------------

  function WordValue(word: Word): Json {
    if word == Lit("null") then Null
    else if word == Lit("true") then Bool(true)
    else if word == Lit("false") then Bool(false)
    else Num(word)
  }

  function SyntaxValue(s: Syntax): Json
    decreases s
  {
    match s
    case Scalar(word) => WordValue(word)
    case Literal(items) => Str(StringValue(items))
    case EmptyArray(_) => Arr([])
    case Array(elems) => Arr(ElemValues(elems))
    case EmptyObject(_) => Obj([])
    case Object(members) => Obj(Dict(MemberValues(members)))
  }

  function ElemValues(es: Elems): seq<Json>
    decreases es
  {
    match es
    case OneElem(e) => [SyntaxValue(e.value)]
    case MoreElems(e, rest) => [SyntaxValue(e.value)] + ElemValues(rest)
  }

  function EntryValue(m: Entry): Member
    decreases m
  {
    Member(StringValue(m.key), SyntaxValue(m.value))
  }

  function MemberValues(ms: Members): seq<Member>
    decreases ms
  {
    match ms
    case OneMember(m) => [EntryValue(m)]
    case MoreMembers(m, rest) => [EntryValue(m)] + MemberValues(rest)
  }

  // --- json.loads reads every legal text to its value ---------------------

  lemma {:induction false} SkipPadding(pad: Padding, rest: Text)
    requires rest == [] || !IsWs(rest[0])
    ensures SkipWs(pad + rest) == rest
  {
    if pad == [] {
      assert pad + rest == rest;
    } else {
      assert (pad + rest)[1..] == pad[1..] + rest;
      SkipPadding(pad[1..], rest);
    }
  }

  lemma {:induction false} ScanLiteral(items: seq<StringItem>, rest: Text)
    ensures ScanItems(ItemsText(items) + [QUOTE] + rest) == Ok(items, rest)
  {
    var t := ItemsText(items) + [QUOTE] + rest;
    if items == [] {
      assert t == [QUOTE] + rest;
      assert t[1..] == rest;
    } else {
      ScanLiteral(items[1..], rest);
      var tail := ItemsText(items[1..]) + [QUOTE] + rest;
      var head := ItemText(items[0]);
      assert t == head + tail;
      assert t[|head|..] == tail;
      assert [items[0]] + items[1..] == items;
      if items[0].Unicode? {
        assert t[2..6] == items[0].hex;
      }
    }
  }

  lemma {:induction false} RunOfNumber(word: Text, rest: Text)
    requires forall i :: 0 <= i < |word| ==> NumberChar(word[i])
    requires rest == [] || !NumberChar(rest[0])
    ensures NumberRun(word + rest) == |word|
  {
    if word == [] {
      assert word + rest == rest;
    } else {
      assert (word + rest)[1..] == word[1..] + rest;
      RunOfNumber(word[1..], rest);
    }
  }

  lemma ParseNumberText(word: Text, rest: Text)
    requires IsNumber(word)
    requires rest == [] || !NumberChar(rest[0])
    ensures ParseValue(word + rest) == Ok(WordValue(word), rest)
  {
    assert WordValue(word) == Num(word) by {
      assert word[0] == 0x2D || IsDigit(word[0]);
    }
    PrefixOfConcat(word, rest);
    RunOfNumber(word, rest);
    assert (word + rest)[0] == word[0] && (word[0] == 0x2D || IsDigit(word[0]));
  }

  lemma ParseLiteralWord(word: Word, rest: Text)
    requires !IsNumber(word)
    requires rest == [] || !NumberChar(rest[0])
    ensures ParseValue(word + rest) == Ok(WordValue(word), rest)
  {
    var t := word + rest;
    PrefixOfConcat(word, rest);
    assert t[0] == word[0];
    hide IsFractionAndExponent, IsExponent;
    if word == Lit("-Infinity") {
      assert t == [0x2D] + t[1..] && !NumberChar(t[1]);
      RunOfNumber([0x2D], t[1..]);
      assert t[..1] == [0x2D];
      assert !IsNumber([0x2D]);
    } else {
      assert !NumberChar(t[0]);
      assert t[..0] == [];
      assert !IsNumber([]);
    }
  }

  lemma {:induction false} FirstOfSyntax(s: Syntax)
    ensures SyntaxText(s) != []
    ensures !IsWs(SyntaxText(s)[0]) && SyntaxText(s)[0] != RBRACKET && SyntaxText(s)[0] != RBRACE
  {
  }

  lemma {:induction false} ParseSyntax(s: Syntax, rest: Text)
    requires rest == [] || !NumberChar(rest[0])
    ensures ParseValue(SyntaxText(s) + rest) == Ok(SyntaxValue(s), rest)
    decreases s
  {
    hide ParseScalar, ScanItems, IsNumber, ParseElems, ParseMembers;
    var t := SyntaxText(s) + rest;
    match s {
      case Scalar(word) =>
        if IsNumber(word) { ParseNumberText(word, rest); } else { ParseLiteralWord(word, rest); }
      case Literal(items) => ParseLiteralText(items, rest);
      case EmptyArray(pad) => ParseEmpty(pad, rest);
      case Array(elems) =>
        assert t[1..] == ElemsText(elems) + [RBRACKET] + rest;
        ParseElemsText(elems, rest);
      case EmptyObject(pad) => ParseEmpty(pad, rest);
      case Object(members) =>
        assert t[1..] == MembersText(members) + [RBRACE] + rest;
        ParseMembersText(members, rest);
    }
  }

  lemma ParseLiteralText(items: seq<StringItem>, rest: Text)
    ensures ParseValue(LiteralText(items) + rest) == Ok(Str(StringValue(items)), rest)
  {
    hide ParseScalar;
    ScanLiteral(items, rest);
    assert (LiteralText(items) + rest)[1..] == ItemsText(items) + [QUOTE] + rest;
  }

  lemma ParseEmpty(pad: Padding, rest: Text)
    ensures ParseValue([LBRACKET] + pad + [RBRACKET] + rest) == Ok(Arr([]), rest)
    ensures ParseValue([LBRACE] + pad + [RBRACE] + rest) == Ok(Obj([]), rest)
  {
    hide ParseScalar, ScanItems;
    SkipPadding(pad, [RBRACKET] + rest);
    SkipPadding(pad, [RBRACE] + rest);
    assert ([LBRACKET] + pad + [RBRACKET] + rest)[1..] == pad + ([RBRACKET] + rest);
    assert ([LBRACE] + pad + [RBRACE] + rest)[1..] == pad + ([RBRACE] + rest);
  }

  /** A padded value: what is left when its leading padding is gone, and what its reader leaves. */
  lemma {:induction false} ParseElemText(e: Elem, tail: Text)
    requires tail != [] && !IsWs(tail[0]) && !NumberChar(tail[0])
    ensures var t := SkipWs(ElemText(e) + tail);
      t != [] && t[0] != RBRACKET && ParseValue(t) == Ok(SyntaxValue(e.value), e.after + tail) && SkipWs(e.after + tail) == tail
    decreases e
  {
    var value := SyntaxText(e.value);
    FirstOfSyntax(e.value);
    assert ElemText(e) + tail == e.before + (value + (e.after + tail));
    SkipPadding(e.before, value + (e.after + tail));
    SkipPadding(e.after, tail);
    ParseSyntax(e.value, e.after + tail);
  }

  lemma {:induction false} ParseElemsText(es: Elems, rest: Text)
    ensures var t := SkipWs(ElemsText(es) + [RBRACKET] + rest);
      t != [] && t[0] != RBRACKET && ParseElems(t) == Ok(ElemValues(es), rest)
    decreases es
  {
    match es {
      case OneElem(e) =>
        assert ElemsText(es) + [RBRACKET] + rest == ElemText(e) + ([RBRACKET] + rest);
        ParseElemText(e, [RBRACKET] + rest);
      case MoreElems(e, more) =>
        var tail := [COMMA] + (ElemsText(more) + [RBRACKET] + rest);
        assert ElemsText(es) + [RBRACKET] + rest == ElemText(e) + tail;
        ParseElemText(e, tail);
        ParseElemsText(more, rest);
        assert tail[1..] == ElemsText(more) + [RBRACKET] + rest;
    }
  }

  lemma EntryTextSplit(m: Entry, tail: Text)
    ensures EntryText(m) + tail ==
            m.before + ([QUOTE] + (ItemsText(m.key) + [QUOTE] + (m.beforeColon + ([COLON] + (m.afterColon + (SyntaxText(m.value) + (m.after + tail)))))))
  {
  }

  lemma {:induction false} ParseEntryText(m: Entry, tail: Text)
    requires tail != [] && !IsWs(tail[0]) && !NumberChar(tail[0])
    ensures var t := SkipWs(EntryText(m) + tail);
      t != [] && t[0] != RBRACE && ParseMember(t) == Ok(EntryValue(m), m.after + tail)
    ensures SkipWs(m.after + tail) == tail
    decreases m
  {
    var value := SyntaxText(m.value) + (m.after + tail);
    var colon := [COLON] + (m.afterColon + value);
    var t := [QUOTE] + (ItemsText(m.key) + [QUOTE] + (m.beforeColon + colon));
    EntryTextSplit(m, tail);
    SkipPadding(m.before, t);
    assert ScanItems(t[1..]) == Ok(m.key, m.beforeColon + colon) by {
      assert t[1..] == ItemsText(m.key) + [QUOTE] + (m.beforeColon + colon);
      ScanLiteral(m.key, m.beforeColon + colon);
    }
    SkipPadding(m.beforeColon, colon);
    assert SkipWs(colon[1..]) == value by {
      assert colon[1..] == m.afterColon + value;
      FirstOfSyntax(m.value);
      SkipPadding(m.afterColon, value);
    }
    SkipPadding(m.after, tail);
    assert ParseValue(value) == Ok(SyntaxValue(m.value), m.after + tail) by {
      ParseSyntax(m.value, m.after + tail);
    }
  }

  lemma {:induction false} ParseMembersText(ms: Members, rest: Text)
    ensures var t := SkipWs(MembersText(ms) + [RBRACE] + rest);
      t != [] && t[0] != RBRACE && ParseMembers(t) == Ok(MemberValues(ms), rest)
    decreases ms
  {
    match ms {
      case OneMember(m) =>
        assert MembersText(ms) + [RBRACE] + rest == EntryText(m) + ([RBRACE] + rest);
        ParseEntryText(m, [RBRACE] + rest);
      case MoreMembers(m, more) =>
        var tail := [COMMA] + (MembersText(more) + [RBRACE] + rest);
        assert MembersText(ms) + [RBRACE] + rest == EntryText(m) + tail;
        ParseEntryText(m, tail);
        ParseMembersText(more, rest);
        assert tail[1..] == MembersText(more) + [RBRACE] + rest;
    }
  }

  /** Every legal text, padded or not, reads back as its value. */
  lemma {:induction false} LoadsLegalText(before: Padding, s: Syntax, after: Padding)
    ensures Loads(before + SyntaxText(s) + after) == Ok(SyntaxValue(s), [])
  {
    FirstOfSyntax(s);
    assert before + SyntaxText(s) + after == before + (SyntaxText(s) + after);
    SkipPadding(before, SyntaxText(s) + after);
    ParseSyntax(s, after);
    assert after + [] == after;
    SkipPadding(after, []);
  }
}
