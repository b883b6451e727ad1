/**
 The many spellings of one JSON value (RFC 8259): what each escape and each numeral is, and that neither
 the streamer nor `json.loads` can tell two spellings apart.
 */
module JsonSpellings {
  import opened PyText
  import opened Sequences
  import opened Json
  import opened JsonLoads
  import opened JsonSyntax
  import opened ArgumentStreamer
  import opened ArgumentStreamerProofs

  // --- simple escapes (section 7) -----------------------------------------

  /** `written` right after a backslash stands for `meant`. */
  predicate SimpleEscape(written: CodePoint, meant: CodePoint) {
    || (written == '"' as int && meant == 0x22)
    || (written == '\\' as int && meant == 0x5C)
    || (written == '/' as int && meant == 0x2F)
    || (written == 'b' as int && meant == 0x08)
    || (written == 'f' as int && meant == 0x0C)
    || (written == 'n' as int && meant == 0x0A)
    || (written == 'r' as int && meant == 0x0D)
    || (written == 't' as int && meant == 0x09)
  }

  lemma SimpleEscapes(written: CodePoint, meant: CodePoint)
    ensures SimpleEscape(written, meant) <==> IsSimpleEscape(written) && Unescape(written) == meant
  {
  }

  /** The streamer's decoder reads each simple escape as its character, and any other but `u` as the character itself. */
  lemma DecodesEscape(s: State, written: CodePoint, meant: CodePoint)
    requires s.escape && s.hexLeft == 0 && written != LOWER_U
    requires SimpleEscape(written, meant) || (meant == written && forall c :: !SimpleEscape(written, c))
    ensures DecodeStringChar(s, written) == (s.(escape := false), Chars([meant]))
  {
    assert SimpleEscape(written, Unescape(written)) || !IsSimpleEscape(written);
  }

  // --- hexadecimal escapes ------------------------------------------------

  const LOWER_DIGITS := "0123456789abcdef"
  const UPPER_DIGITS := "0123456789ABCDEF"

  /** A hexadecimal digit is one of the sixteen in either case, and its value is its place there. */
  lemma HexDigits(c: CodePoint)
    ensures IsHexDigit(c) <==> exists d :: 0 <= d < 16 && (c == LOWER_DIGITS[d] as int || c == UPPER_DIGITS[d] as int)
    ensures forall d :: 0 <= d < 16 && (c == LOWER_DIGITS[d] as int || c == UPPER_DIGITS[d] as int) ==>
              IsHexDigit(c) && HexDigit(c) == d
  {
    forall d | 0 <= d < 16
      ensures LOWER_DIGITS[d] as int == (if d < 10 then 0x30 else 0x57) + d
      ensures UPPER_DIGITS[d] as int == (if d < 10 then 0x30 else 0x37) + d
    {
    }
    hide LOWER_DIGITS, UPPER_DIGITS;
    if 0x30 <= c <= 0x39 { assert c == LOWER_DIGITS[c - 0x30] as int; }
    if 0x41 <= c <= 0x46 { assert c == UPPER_DIGITS[c - 0x37] as int; }
    if 0x61 <= c <= 0x66 { assert c == LOWER_DIGITS[c - 0x57] as int; }
  }

  /** The number some hexadecimal digits spell. */
  function HexNumber(t: Text): nat
    requires forall i :: 0 <= i < |t| ==> IsHexDigit(t[i])
  {
    if t == [] then 0 else HexNumber(t[..|t| - 1]) * 16 + HexDigit(t[|t| - 1])
  }

  /** Exactly four digits, and their number. */
  lemma Hex4Spells(t: Text)
    ensures IsHex4(t) <==> |t| == 4 && forall i :: 0 <= i < |t| ==> IsHexDigit(t[i])
    ensures IsHex4(t) ==> Hex4(t) == HexNumber(t)
  {
    if IsHex4(t) {
      assert t[..3][..2] == t[..2] && t[..2][..1] == t[..1] && t[..1][..0] == [];
      assert HexNumber(t[..1]) == HexDigit(t[0]);
      assert HexNumber(t[..2]) == HexDigit(t[0]) * 16 + HexDigit(t[1]);
      assert HexNumber(t[..3]) == HexNumber(t[..2]) * 16 + HexDigit(t[2]);
    }
  }

  // --- string literals ----------------------------------------------------

  /** The code unit one written item stands for. */
  predicate Means(item: StringItem, unit: CodePoint) {
    match item
    case Plain(c) => c == unit
    case Escaped(c) => SimpleEscape(c, unit)
    case Unicode(hex) => HexNumber(hex) == unit
  }

  /** The streamed value of a literal is, place by place, what its items stand for. */
  lemma {:induction false} UnitsByPlace(items: seq<StringItem>, units: Text)
    requires |units| == |items| && forall i :: 0 <= i < |items| ==> Means(items[i], units[i])
    ensures Units(items) == units
    decreases items
  {
    if items != [] {
      if items[0].Escaped? { SimpleEscapes(items[0].c, units[0]); }
      if items[0].Unicode? { Hex4Spells(items[0].hex); }
      assert Unit(items[0]) == units[0];
      hide Unit, Means;
      UnitsByPlace(items[1..], units[1..]);
      assert units == [units[0]] + units[1..];
    }
  }

  /** Two items for one code unit that no surrogate pair can tell apart. */
  predicate Respelled(a: StringItem, b: StringItem) {
    (exists unit :: Means(a, unit) && Means(b, unit)) && (HighEscape(a) <==> HighEscape(b)) && (LowEscape(a) <==> LowEscape(b))
  }

  lemma RespelledUnits(a: StringItem, b: StringItem)
    requires Respelled(a, b)
    ensures Unit(a) == Unit(b)
    ensures a.Unicode? && b.Unicode? ==> Hex4(a.hex) == Hex4(b.hex)
  {
    var unit :| Means(a, unit) && Means(b, unit);
    if a.Escaped? { SimpleEscapes(a.c, unit); }
    if b.Escaped? { SimpleEscapes(b.c, unit); }
    if a.Unicode? { Hex4Spells(a.hex); }
    if b.Unicode? { Hex4Spells(b.hex); }
  }

  predicate RespelledItems(a: seq<StringItem>, b: seq<StringItem>) {
    |a| == |b| && forall i :: 0 <= i < |a| ==> Respelled(a[i], b[i])
  }

  /** What the values are computed from. */
  predicate SameReading(a: StringItem, b: StringItem) {
    && Unit(a) == Unit(b) && (HighEscape(a) <==> HighEscape(b)) && (LowEscape(a) <==> LowEscape(b))
    && (a.Unicode? && b.Unicode? ==> Hex4(a.hex) == Hex4(b.hex))
  }

  lemma {:induction false} SameReadings(a: seq<StringItem>, b: seq<StringItem>)
    requires |a| == |b| && forall i :: 0 <= i < |a| ==> SameReading(a[i], b[i])
    ensures Units(a) == Units(b) && StringValue(a) == StringValue(b)
    decreases |a|
  {
    if a != [] {
      assert SameReading(a[0], b[0]) && (|a| > 1 ==> SameReading(a[1], b[1]));
      hide Unit, HighEscape, LowEscape;
      SameReadings(a[1..], b[1..]);
      if |a| > 1 && HighEscape(a[0]) && LowEscape(a[1]) {
        PairOfUnicode(a[0], a[1]);
        PairOfUnicode(b[0], b[1]);
        SameReadings(a[2..], b[2..]);
      }
    }
  }

  lemma PairOfUnicode(a: StringItem, b: StringItem)
    requires HighEscape(a) && LowEscape(b)
    ensures a.Unicode? && b.Unicode?
  {
  }

  /** Respelling any items of a literal changes neither its streamed nor its loaded value. */
  lemma RespelledLiteral(a: seq<StringItem>, b: seq<StringItem>)
    requires RespelledItems(a, b)
    ensures Units(a) == Units(b) && StringValue(a) == StringValue(b)
  {
    forall i | 0 <= i < |a| ensures SameReading(a[i], b[i]) {
      RespelledUnits(a[i], b[i]);
      hide Unit, Means;
    }
    hide SameReading;
    SameReadings(a, b);
  }

  /** The backslash before a slash, and any escape of a character no surrogate, can be exchanged for another spelling. */
  lemma SlashNeedsNoEscape()
    ensures var escaped: StringItem := Escaped('/' as int); var plain: StringItem := Plain('/' as int); Respelled(escaped, plain)
    ensures forall written, meant, hex :: SimpleEscape(written, meant) && IsHex4(hex) && HexNumber(hex) == meant ==>
              var simple: StringItem := Escaped(written); var unicode: StringItem := Unicode(hex); Respelled(simple, unicode)
  {
    var escaped: StringItem, plain: StringItem := Escaped('/' as int), Plain('/' as int);
    assert Means(escaped, 0x2F) && Means(plain, 0x2F);
    forall written, meant, hex | SimpleEscape(written, meant) && IsHex4(hex) && HexNumber(hex) == meant
      ensures var simple: StringItem := Escaped(written); var unicode: StringItem := Unicode(hex); Respelled(simple, unicode)
    {
      var simple: StringItem, unicode: StringItem := Escaped(written), Unicode(hex);
      Hex4Spells(hex);
      assert Means(simple, meant) && Means(unicode, meant);
    }
  }

  // --- numerals (section 6) -----------------------------------------------

  predicate AreDigits(t: Text) { t != [] && forall i :: 0 <= i < |t| ==> '0' as int <= t[i] <= '9' as int }

  /** `e` or `E`, a sign if any, and digits; and a fraction's digits behind the point. */
  predicate IsExponentPart(t: Text) {
    |t| >= 2 && (t[0] == 'e' as int || t[0] == 'E' as int)
    && (AreDigits(t[1..]) || ((t[1] == '+' as int || t[1] == '-' as int) && AreDigits(t[2..])))
  }

  predicate IsFractionPart(t: Text) { |t| >= 2 && t[0] == '.' as int && AreDigits(t[1..]) }

  /** No leading zero. */
  predicate IsIntegerPart(t: Text) { AreDigits(t) && (t[0] == '0' as int ==> |t| == 1) }

  predicate IsNumeral(minus: Text, whole: Text, fraction: Text, exponent: Text) {
    && (minus == [] || minus == ['-' as int])
    && IsIntegerPart(whole)
    && (fraction == [] || IsFractionPart(fraction))
    && (exponent == [] || IsExponentPart(exponent))
  }

  lemma {:induction false} RunOfDigits(digits: Text, rest: Text)
    requires forall i :: 0 <= i < |digits| ==> IsDigit(digits[i])
    requires rest == [] || !IsDigit(rest[0])
    ensures DigitRun(digits + rest) == |digits|
    decreases digits
  {
    if digits == [] {
      assert digits + rest == rest;
    } else {
      assert (digits + rest)[1..] == digits[1..] + rest;
      RunOfDigits(digits[1..], rest);
    }
  }

  lemma ExponentParts(t: Text)
    ensures IsExponent(t) <==> t == [] || IsExponentPart(t)
  {
    if t != [] {
      var digits := if |t| > 1 && (t[1] == 0x2B || t[1] == 0x2D) then t[2..] else t[1..];
      if forall i :: 0 <= i < |digits| ==> IsDigit(digits[i]) {
        RunOfDigits(digits, []);
        assert digits + [] == digits;
      }
    }
  }

  lemma FractionFrom(t: Text) returns (fraction: Text, exponent: Text)
    requires IsFractionAndExponent(t)
    ensures t == fraction + exponent && (fraction == [] || IsFractionPart(fraction)) && (exponent == [] || IsExponentPart(exponent))
  {
    if t != [] && t[0] == 0x2E {
      var n := DigitRun(t[1..]);
      fraction, exponent := t[..1 + n], t[1 + n..];
      assert fraction[1..] == t[1..][..n];
    } else {
      fraction, exponent := [], t;
    }
    ExponentParts(exponent);
  }

  lemma FractionReads(fraction: Text, exponent: Text)
    requires (fraction == [] || IsFractionPart(fraction)) && (exponent == [] || IsExponentPart(exponent))
    ensures IsFractionAndExponent(fraction + exponent)
    ensures fraction + exponent == [] || !IsDigit((fraction + exponent)[0])
    ensures forall i :: 0 <= i < |fraction + exponent| ==> NumberChar((fraction + exponent)[i])
  {
    var t := fraction + exponent;
    ExponentParts(exponent);
    ExponentChars(exponent);
    hide IsExponent, IsExponentPart;
    if fraction == [] {
      assert t == exponent;
    } else {
      RunOfDigits(fraction[1..], exponent);
      TailOfConcat(fraction, exponent, 1);
      TailOfConcat(fraction, exponent, |fraction|);
    }
    forall i | 0 <= i < |t| ensures NumberChar(t[i]) {
      if i >= |fraction| {
        assert t[i] == exponent[i - |fraction|];
      } else if i > 0 {
        assert t[i] == fraction[1..][i - 1];
      }
    }
  }

  lemma TailOfConcat(a: Text, b: Text, k: nat)
    requires k <= |a|
    ensures (a + b)[k..] == a[k..] + b && (a + b)[|a|..] == b
  {
  }

  lemma ExponentChars(exponent: Text)
    requires exponent == [] || IsExponentPart(exponent)
    ensures forall i :: 0 <= i < |exponent| ==> NumberChar(exponent[i])
    ensures exponent != [] ==> !IsDigit(exponent[0]) && exponent[0] != '.' as int
  {
    if exponent != [] {
      var from := if AreDigits(exponent[1..]) then 1 else 2;
      forall i | from <= i < |exponent| ensures NumberChar(exponent[i]) {
        assert exponent[i] == exponent[from..][i - from];
      }
    }
  }

  /** The numbers read are exactly the numerals of the grammar: a sign, an integer part, a fraction, an exponent. */
  lemma NumbersAreNumerals(t: Text)
    ensures IsNumber(t) <==> exists minus, whole, fraction, exponent ::
              IsNumeral(minus, whole, fraction, exponent) && t == minus + whole + (fraction + exponent)
  {
    if IsNumber(t) {
      var minus, whole, fraction, exponent := NumberParts(t);
    }
    hide IsNumber, IsNumeral;
    if minus, whole, fraction, exponent :|
        IsNumeral(minus, whole, fraction, exponent) && t == minus + whole + (fraction + exponent) {
      NumeralReads(minus, whole, fraction, exponent);
    }
  }

  lemma NumberParts(t: Text) returns (minus: Text, whole: Text, fraction: Text, exponent: Text)
    requires IsNumber(t)
    ensures IsNumeral(minus, whole, fraction, exponent) && t == minus + whole + (fraction + exponent)
  {
    hide IsFractionAndExponent, IsFractionPart, IsExponentPart;
    var body := BodyOf(t);
    minus := if t[0] == 0x2D then ['-' as int] else [];
    hide IsNumber;
    var n := WholePart(body);
    whole := body[..n];
    fraction, exponent := FractionFrom(body[n..]);
    hide DigitRun, IsIntegerPart;
    SplitAt(body, n);
    Associative(minus, whole, fraction + exponent);
  }

  lemma BodyOf(t: Text) returns (body: Text)
    requires IsNumber(t)
    ensures t == (if t[0] == 0x2D then ['-' as int] else []) + body && body != [] && IsDigit(body[0])
    ensures IsFractionAndExponent(body[if body[0] == 0x30 then 1 else DigitRun(body)..])
  {
    hide IsFractionAndExponent, NumberChar, DigitRun;
    body := if t[0] == 0x2D then t[1..] else t;
    LeftEmpty(t);
  }

  lemma WholePart(body: Text) returns (n: nat)
    requires body != [] && IsDigit(body[0])
    ensures n == (if body[0] == 0x30 then 1 else DigitRun(body)) <= |body|
    ensures IsIntegerPart(body[..n])
  {
    n := if body[0] == 0x30 then 1 else DigitRun(body);
  }

  lemma NumeralReads(minus: Text, whole: Text, fraction: Text, exponent: Text)
    requires IsNumeral(minus, whole, fraction, exponent)
    ensures IsNumber(minus + whole + (fraction + exponent))
  {
    var tail := fraction + exponent;
    FractionReads(fraction, exponent);
    hide IsFractionAndExponent, IsFractionPart, IsExponentPart;
    WholeReads(minus, whole, tail);
  }

  lemma WholeReads(minus: Text, whole: Text, tail: Text)
    requires (minus == [] || minus == ['-' as int]) && IsIntegerPart(whole)
    requires IsFractionAndExponent(tail) && (tail == [] || !IsDigit(tail[0]))
    requires forall i :: 0 <= i < |tail| ==> NumberChar(tail[i])
    ensures IsNumber(minus + whole + tail)
  {
    hide IsFractionAndExponent;
    var t, body := minus + whole + tail, whole + tail;
    assert NumberChar('-' as int);
    assert forall i :: 0 <= i < |whole| ==> NumberChar(whole[i]);
    AllOfConcat(minus, whole, tail);
    hide NumberChar;
    assert (if t[0] == 0x2D then t[1..] else t) == body by {
      if minus == [] { assert t == body; } else { assert t[1..] == body; }
    }
    RunOfDigits(whole, tail);
    var n := if body[0] == 0x30 then 1 else DigitRun(body);
    assert n == |whole| && body[n..] == tail;
  }

  lemma AllOfConcat(a: Text, b: Text, c: Text)
    requires forall i :: 0 <= i < |a| ==> NumberChar(a[i])
    requires forall i :: 0 <= i < |b| ==> NumberChar(b[i])
    requires forall i :: 0 <= i < |c| ==> NumberChar(c[i])
    ensures forall i :: 0 <= i < |a + b + c| ==> NumberChar((a + b + c)[i])
  {
    hide NumberChar;
  }

  // --- documents ----------------------------------------------------------

  /** The same document, its literals respelled and padded differently. */
  predicate SameDocument(a: Syntax, b: Syntax)
    decreases a
  {
    match (a, b)
    case (Scalar(v), Scalar(w)) => v == w
    case (Literal(items), Literal(others)) => RespelledItems(items, others)
    case (EmptyArray(_), EmptyArray(_)) => true
    case (Array(elems), Array(others)) => SameElems(elems, others)
    case (EmptyObject(_), EmptyObject(_)) => true
    case (Object(members), Object(others)) => SameMembers(members, others)
    case _ => false
  }

  predicate SameElems(a: Elems, b: Elems)
    decreases a
  {
    match (a, b)
    case (OneElem(d), OneElem(e)) => SameDocument(d.value, e.value)
    case (MoreElems(d, more), MoreElems(e, rest)) => SameDocument(d.value, e.value) && SameElems(more, rest)
    case _ => false
  }

  predicate SameMembers(a: Members, b: Members)
    decreases a
  {
    match (a, b)
    case (OneMember(m), OneMember(n)) => RespelledItems(m.key, n.key) && SameDocument(m.value, n.value)
    case (MoreMembers(m, more), MoreMembers(n, rest)) =>
      RespelledItems(m.key, n.key) && SameDocument(m.value, n.value) && SameMembers(more, rest)
    case _ => false
  }

  lemma {:induction false} SameValue(a: Syntax, b: Syntax)
    requires SameDocument(a, b)
    ensures SyntaxValue(a) == SyntaxValue(b)
    decreases a
  {
    match a {
      case Literal(items) => RespelledLiteral(items, b.items);
      case Array(elems) => SameElemValues(elems, b.elems);
      case Object(members) => SameMemberValues(members, b.members);
      case _ =>
    }
  }

  lemma {:induction false} SameElemValues(a: Elems, b: Elems)
    requires SameElems(a, b)
    ensures ElemValues(a) == ElemValues(b)
    decreases a
  {
    SameValue(a.e.value, b.e.value);
    if a.MoreElems? { SameElemValues(a.rest, b.rest); }
  }

  lemma {:induction false} SameMemberValues(a: Members, b: Members)
    requires SameMembers(a, b)
    ensures MemberValues(a) == MemberValues(b)
    decreases a
  {
    RespelledLiteral(a.m.key, b.m.key);
    SameValue(a.m.value, b.m.value);
    if a.MoreMembers? { SameMemberValues(a.rest, b.rest); }
  }

  lemma {:induction false} SamePieces(key: Text, a: seq<StringItem>, b: seq<StringItem>)
    requires RespelledItems(a, b)
    ensures PieceEvents(key, a) == PieceEvents(key, b)
    decreases a
  {
    if a != [] {
      RespelledUnits(a[0], b[0]);
      assert RespelledItems(a[1..], b[1..]);
      SamePieces(key, a[1..], b[1..]);
    }
  }

  lemma {:induction false} SameMembersEvents(a: Members, b: Members)
    requires SameMembers(a, b)
    ensures MembersEvents(a) == MembersEvents(b)
    decreases a
  {
    RespelledLiteral(a.m.key, b.m.key);
    SameValue(a.m.value, b.m.value);
    if a.m.value.Literal? {
      RespelledLiteral(a.m.value.items, b.m.value.items);
      SamePieces(Units(a.m.key), a.m.value.items, b.m.value.items);
    }
    assert EntryEvents(a.m) == EntryEvents(b.m);
    if a.MoreMembers? { SameMembersEvents(a.rest, b.rest); }
  }

  /**
   Two spellings of one object, in any chunks: the streamer reports the same events and `json.loads` the
   same value.
   */
  lemma SpellingIsIrrelevant(a: Syntax, b: Syntax, chunks: seq<Text>, others: seq<Text>)
    requires SameDocument(a, b) && (a.EmptyObject? || a.Object?)
    requires Concat(chunks) == SyntaxText(a) && Concat(others) == SyntaxText(b)
    ensures FeedAll(INITIAL, chunks).events == FeedAll(INITIAL, others).events
    ensures Loads(SyntaxText(a)) == Loads(SyntaxText(b))
  {
    if a.Object? { SameMembersEvents(a.members, b.members); }
    SameValue(a, b);
    LoadsBare(a);
    LoadsBare(b);
    StreamsBare(a, chunks);
    StreamsBare(b, others);
  }

  lemma LoadsBare(s: Syntax)
    ensures Loads(SyntaxText(s)) == Ok(SyntaxValue(s), [])
  {
    hide SyntaxText, SyntaxValue, Loads;
    var none: Padding := [];
    LoadsLegalText(none, s, none);
    assert none + SyntaxText(s) + none == SyntaxText(s);
  }

  lemma StreamsBare(s: Syntax, chunks: seq<Text>)
    requires (s.EmptyObject? || s.Object?) && Concat(chunks) == SyntaxText(s)
    ensures FeedAll(INITIAL, chunks).events == ObjectEvents(s)
  {
    var none: Padding := [];
    hide SyntaxText, FeedAll, ObjectEvents;
    assert none + SyntaxText(s) + [] == SyntaxText(s);
    LegalObjectEvents(none, s, [], chunks);
  }
}
