/** What the streamer emits: a grammar kept on every input, and the exact events of every legal object. */
module ArgumentStreamerProofs {
  import opened PyText
  import opened Json
  import opened JsonLoads
  import opened JsonSyntax
  import opened ArgumentStreamer

  // --- every input: the event grammar -------------------------------------

  /** Where a listener stands in `(KeyReady StringChars* ValueComplete)* ObjectDone?`. */
  datatype Listener =
    | Between
    | Keyed(key: Text, pieces: seq<Text>)
    | Ended
    | Broken

  function Hear(l: Listener, e: Event): Listener {
    match (l, e)
    case (Between, KeyReady(key)) => Keyed(key, [])
    case (Between, ObjectDone) => Ended
    case (Keyed(key, pieces), StringChars(key', text)) =>
      if key' == key then Keyed(key, pieces + [text]) else Broken
    case (Keyed(key, pieces), ValueComplete(key', value)) =>
      if key' == key && (pieces == [] || value == Str(Concat(pieces))) then Between else Broken
    case _ => Broken
  }

  function HearAll(l: Listener, events: seq<Event>): Listener
    decreases events
  {
    if events == [] then l else HearAll(Hear(l, events[0]), events[1..])
  }

  lemma {:induction false} HearConcat(l: Listener, a: seq<Event>, b: seq<Event>)
    ensures HearAll(l, a + b) == HearAll(HearAll(l, a), b)
    decreases a
  {
    if a == [] {
      assert a + b == b;
    } else {
      assert (a + b)[1..] == a[1..] + b;
      HearConcat(Hear(l, a[0]), a[1..], b);
    }
  }

  /** Where the listener must stand, given the streamer's own state. */
  predicate Agree(s: State, l: Listener) {
    match s.phase
    case SeekObject | BetweenKeys | InKey => l == Between
    case AfterKey | SeekValue | InRaw => l == Keyed(s.currentKey, [])
    case InString => l == Keyed(s.currentKey, s.stringParts)
    case Finished => l == Between || l == Ended
  }

  /** The streamer's representation invariant; in a nested value the depth is the height of the bracket stack. */
  predicate Consistent(s: State) {
    && (s.done <==> s.phase == Finished)
    && (s.phase == InRaw ==> s.nestDepth == |s.nestStack|)
    && (s.phase == InRaw && s.nestDepth == 0 ==> !s.inNestString)
    && s.hexLeft <= 4
    && (s.hexLeft > 0 ==> |s.hexBuf| == 4 - s.hexLeft && !s.escape)
  }

  predicate Keeps(step: Step, l: Listener) {
    Consistent(step.state) && Agree(step.state, HearAll(l, step.events))
  }

  lemma HearOne(l: Listener, e: Event)
    ensures HearAll(l, [e]) == Hear(l, e)
  {
    assert [e][1..] == [];
  }

  lemma StringKeepsGrammar(s: State, l: Listener, ch: CodePoint)
    requires Consistent(s) && Agree(s, l)
    ensures s.phase == InKey ==> Keeps(ConsumeKey(s, ch), l)
    ensures s.phase == InString ==> Keeps(ConsumeTopString(s, ch), l)
  {
    var (s', decoded) := DecodeStringChar(s, ch);
    assert Consistent(s');
    HearOne(l, KeyReady(s'.keyBuf));
    HearOne(l, ValueComplete(s'.currentKey, Str(Concat(s'.stringParts))));
    if decoded.Chars? {
      HearOne(l, StringChars(s'.currentKey, decoded.text));
    }
  }

  lemma FinishKeepsGrammar(s: State, l: Listener)
    requires s.hexLeft <= 4 && (s.hexLeft > 0 ==> |s.hexBuf| == 4 - s.hexLeft && !s.escape)
    requires !s.done && s.phase == InRaw && Agree(s, l)
    ensures Keeps(FinishRaw(s), l)
  {
    HearOne(l, ValueComplete(s.currentKey, RawValue(s.rawBuf)));
  }

  lemma BetweenKeepsGrammar(s: State, ch: CodePoint)
    requires Consistent(s) && s.phase == BetweenKeys
    ensures Keeps(ConsumeBetweenKeys(s, ch), Between)
  {
    HearOne(Between, ObjectDone);
  }

  lemma RawKeepsGrammar(s: State, l: Listener, ch: CodePoint)
    requires Consistent(s) && Agree(s, l) && s.phase == InRaw
    ensures Keeps(ConsumeRaw(s, ch), l)
  {
    if s.nestDepth > 0 {
      var s1 := s.(rawBuf := s.rawBuf + [ch]);
      if !s.inNestString && Shuts(ch) && s.nestDepth == 1 {
        FinishKeepsGrammar(s1.(nestDepth := 0, nestStack := []), l);
      }
    } else {
      FinishKeepsGrammar(s, l);
      var finish := FinishRaw(s);
      BetweenKeepsGrammar(finish.state, ch);
      HearConcat(l, finish.events, ConsumeBetweenKeys(finish.state, ch).events);
    }
  }

  lemma ConsumeKeepsGrammar(s: State, l: Listener, ch: CodePoint)
    requires Consistent(s) && Agree(s, l)
    ensures Keeps(Consume(s, ch), l)
  {
    hide ConsumeBetweenKeys, ConsumeKey, ConsumeTopString, ConsumeRaw;
    match s.phase {
      case BetweenKeys => BetweenKeepsGrammar(s, ch);
      case InKey | InString => StringKeepsGrammar(s, l, ch);
      case InRaw => RawKeepsGrammar(s, l, ch);
      case _ =>
    }
  }

  lemma {:induction false} FeedKeepsGrammar(s: State, l: Listener, text: Text)
    requires Consistent(s) && Agree(s, l)
    ensures Keeps(Feed(s, text), l)
    decreases text
  {
    if !s.done && text != [] {
      var one := Consume(s, text[0]);
      var more := Feed(one.state, text[1..]);
      ConsumeKeepsGrammar(s, l, text[0]);
      FeedKeepsGrammar(one.state, HearAll(l, one.events), text[1..]);
      HearConcat(l, one.events, more.events);
      assert Feed(s, text) == Step(more.state, one.events + more.events);
    }
  }

  /** Malformed or not, in any chunks: the events never leave the grammar and the state stays consistent. */
  lemma EventsFollowGrammar(chunks: seq<Text>)
    ensures var step := FeedAll(INITIAL, chunks);
      && Consistent(step.state)
      && HearAll(Between, step.events) != Broken
      && Agree(step.state, HearAll(Between, step.events))
  {
    ChunkingIsIrrelevant(INITIAL, chunks);
    FeedKeepsGrammar(INITIAL, Between, Concat(chunks));
  }

  // --- legal objects: the expected events ---------------------------------

  function PieceEvents(key: Text, items: seq<StringItem>): seq<Event> {
    if items == [] then [] else [StringChars(key, [Unit(items[0])])] + PieceEvents(key, items[1..])
  }

  /** The value the streamer reports: a string literal keeps escaped surrogates apart. */
  function StreamedValue(s: Syntax): Json {
    if s.Literal? then Str(Units(s.items)) else SyntaxValue(s)
  }

  function EntryEvents(m: Entry): seq<Event> {
    var key := Units(m.key);
    [KeyReady(key)]
    + (if m.value.Literal? then PieceEvents(key, m.value.items) else [])
    + [ValueComplete(key, StreamedValue(m.value))]
  }

  function MembersEvents(ms: Members): seq<Event> {
    match ms
    case OneMember(m) => EntryEvents(m)
    case MoreMembers(m, rest) => EntryEvents(m) + MembersEvents(rest)
  }

  /** The events of a legal object text: its members in order, then one `ObjectDone`. */
  function ObjectEvents(s: Syntax): seq<Event>
    requires s.EmptyObject? || s.Object?
  {
    (if s.Object? then MembersEvents(s.members) else []) + [ObjectDone]
  }

  // --- running the streamer over legal text -------------------------------

  /** `text` takes `s` to `s'`, emitting `events`. */
  predicate Runs(s: State, text: Text, s': State, events: seq<Event>) {
    Feed(s, text) == Step(s', events)
  }

  lemma RunsNone(s: State)
    ensures Runs(s, [], s, [])
  {
  }

  lemma RunsOne(s: State, ch: CodePoint)
    requires !s.done
    ensures Runs(s, [ch], Consume(s, ch).state, Consume(s, ch).events)
  {
    FeedSnoc(s, [], ch);
    assert [] + [ch] == [ch];
    assert [] + Consume(s, ch).events == Consume(s, ch).events;
  }

  lemma RunsThen(s: State, a: Text, s1: State, e1: seq<Event>, b: Text, s2: State, e2: seq<Event>)
    requires Runs(s, a, s1, e1) && Runs(s1, b, s2, e2)
    ensures Runs(s, a + b, s2, e1 + e2)
  {
    FeedConcat(s, a, b);
  }

  lemma RunsQuietThen(s: State, a: Text, s1: State, b: Text, s2: State, e2: seq<Event>)
    requires Runs(s, a, s1, []) && Runs(s1, b, s2, e2)
    ensures Runs(s, a + b, s2, e2)
  {
    RunsThen(s, a, s1, [], b, s2, e2);
    assert [] + e2 == e2;
  }

  lemma RunsThenQuiet(s: State, a: Text, s1: State, e1: seq<Event>, b: Text, s2: State)
    requires Runs(s, a, s1, e1) && Runs(s1, b, s2, [])
    ensures Runs(s, a + b, s2, e1)
  {
    RunsThen(s, a, s1, e1, b, s2, []);
    assert e1 + [] == e1;
  }

  lemma {:induction false} RunsPadding(s: State, pad: Padding)
    requires !s.done && s.phase in {SeekObject, BetweenKeys, AfterKey, SeekValue}
    ensures Runs(s, pad, s, [])
    decreases pad
  {
    hide Runs;
    if pad == [] {
      RunsNone(s);
    } else {
      RunsOne(s, pad[0]);
      RunsPadding(s, pad[1..]);
      RunsQuietThen(s, [pad[0]], s, pad[1..], s, []);
      assert [pad[0]] + pad[1..] == pad;
    }
  }

  /** The decoder is at rest, inside a key or a string. */
  predicate AtRest(s: State) {
    !s.done && (s.phase == InKey || s.phase == InString) && !s.escape && s.hexLeft == 0
  }

  function Take(s: State, unit: CodePoint): State {
    if s.phase == InKey then s.(keyBuf := s.keyBuf + [unit], hexBuf := [])
    else s.(stringParts := s.stringParts + [[unit]], hexBuf := [])
  }

  function TakeEvents(s: State, unit: CodePoint): seq<Event> {
    if s.phase == InKey then [] else [StringChars(s.currentKey, [unit])]
  }

  lemma RunsItem(s: State, item: StringItem)
    requires AtRest(s) && s.hexBuf == []
    ensures Runs(s, ItemText(item), Take(s, Unit(item)), TakeEvents(s, Unit(item)))
  {
    hide Runs;
    match item {
      case Plain(c) => RunsOne(s, c);
      case Escaped(c) =>
        var s1 := s.(escape := true);
        RunsOne(s, BACKSLASH);
        RunsOne(s1, c);
        RunsQuietThen(s, [BACKSLASH], s1, [c], Take(s, Unit(item)), TakeEvents(s, Unit(item)));
        assert [BACKSLASH] + [c] == ItemText(item);
      case Unicode(hex) =>
        var s1 := s.(escape := true);
        var s2 := s.(hexLeft := 4);
        RunsOne(s, BACKSLASH);
        RunsOne(s1, LOWER_U);
        RunsQuietThen(s, [BACKSLASH], s1, [LOWER_U], s2, []);
        RunsHex(s, hex);
        RunsQuietThen(s, [BACKSLASH] + [LOWER_U], s2, hex, Take(s, Unit(item)), TakeEvents(s, Unit(item)));
        assert [BACKSLASH] + [LOWER_U] + hex == ItemText(item);
    }
  }

  lemma RunsHex(s: State, hex: Text)
    requires AtRest(s) && s.hexBuf == [] && IsHex4(hex)
    ensures Runs(s.(hexLeft := 4), hex, Take(s, Hex4(hex)), TakeEvents(s, Hex4(hex)))
  {
    hide Runs;
    var s0 := s.(hexLeft := 4);
    var s1 := s.(hexLeft := 3, hexBuf := [hex[0]]);
    var s2 := s.(hexLeft := 2, hexBuf := [hex[0], hex[1]]);
    var s3 := s.(hexLeft := 1, hexBuf := [hex[0], hex[1], hex[2]]);
    RunsOne(s0, hex[0]);
    RunsOne(s1, hex[1]);
    RunsQuietThen(s0, [hex[0]], s1, [hex[1]], s2, []);
    RunsOne(s2, hex[2]);
    RunsQuietThen(s0, [hex[0]] + [hex[1]], s2, [hex[2]], s3, []);
    RunsOne(s3, hex[3]);
    assert s3.hexBuf + [hex[3]] == hex;
    RunsQuietThen(s0, [hex[0]] + [hex[1]] + [hex[2]], s3, [hex[3]], Take(s, Hex4(hex)), TakeEvents(s, Hex4(hex)));
    assert [hex[0]] + [hex[1]] + [hex[2]] + [hex[3]] == hex;
  }

  function SingleUnits(items: seq<StringItem>): seq<Text> {
    if items == [] then [] else [[Unit(items[0])]] + SingleUnits(items[1..])
  }

  lemma {:induction false} ConcatSingleUnits(items: seq<StringItem>)
    ensures Concat(SingleUnits(items)) == Units(items)
  {
    if items != [] {
      ConcatSingleUnits(items[1..]);
      assert SingleUnits(items)[1..] == SingleUnits(items[1..]);
    }
  }

  function TakeItems(s: State, items: seq<StringItem>): State
    decreases items
  {
    if items == [] then s else TakeItems(Take(s, Unit(items[0])), items[1..])
  }

  lemma {:induction false} TakenKey(s: State, items: seq<StringItem>)
    requires s.hexBuf == [] && s.phase == InKey
    ensures TakeItems(s, items) == s.(keyBuf := s.keyBuf + Units(items))
    decreases items
  {
    hide Unit;
    if items == [] {
      assert s.keyBuf + [] == s.keyBuf;
    } else {
      TakenKey(Take(s, Unit(items[0])), items[1..]);
      assert s.keyBuf + [Unit(items[0])] + Units(items[1..]) == s.keyBuf + Units(items);
    }
  }

  lemma {:induction false} TakenString(s: State, items: seq<StringItem>)
    requires s.hexBuf == [] && s.phase != InKey
    ensures TakeItems(s, items) == s.(stringParts := s.stringParts + SingleUnits(items))
    decreases items
  {
    hide Unit;
    if items == [] {
      assert s.stringParts + [] == s.stringParts;
    } else {
      TakenString(Take(s, Unit(items[0])), items[1..]);
      assert s.stringParts + [[Unit(items[0])]] + SingleUnits(items[1..]) == s.stringParts + SingleUnits(items);
    }
  }

  lemma {:induction false} RunsItems(s: State, items: seq<StringItem>)
    requires AtRest(s) && s.hexBuf == []
    ensures Runs(s, ItemsText(items), TakeItems(s, items), if s.phase == InKey then [] else PieceEvents(s.currentKey, items))
    decreases items
  {
    hide Runs, ItemText, Unit;
    if items == [] {
      RunsNone(s);
    } else {
      var s1 := Take(s, Unit(items[0]));
      RunsItem(s, items[0]);
      RunsItems(s1, items[1..]);
      if s.phase == InKey {
        RunsQuietThen(s, ItemText(items[0]), s1, ItemsText(items[1..]), TakeItems(s1, items[1..]), []);
      } else {
        RunsThen(s, ItemText(items[0]), s1, [StringChars(s.currentKey, [Unit(items[0])])],
                 ItemsText(items[1..]), TakeItems(s1, items[1..]), PieceEvents(s.currentKey, items[1..]));
      }
    }
  }

  /** A key: from between two members to right after the closing quote. */
  lemma RunsKey(s: State, key: seq<StringItem>) returns (s': State)
    requires !s.done && s.phase == BetweenKeys
    ensures Runs(s, LiteralText(key), s', [KeyReady(Units(key))])
    ensures !s'.done && s'.phase == AfterKey && s'.currentKey == Units(key)
  {
    hide Runs;
    var s1 := Consume(s, QUOTE).state;
    var s2 := s1.(keyBuf := Units(key));
    RunsOne(s, QUOTE);
    RunsItems(s1, key);
    TakenKey(s1, key);
    assert [] + Units(key) == Units(key);
    RunsQuietThen(s, [QUOTE], s1, ItemsText(key), s2, []);
    s' := Consume(s2, QUOTE).state;
    RunsOne(s2, QUOTE);
    RunsQuietThen(s, [QUOTE] + ItemsText(key), s2, [QUOTE], s', [KeyReady(Units(key))]);
  }

  /** A string value: its pieces, then the whole. */
  lemma RunsString(s: State, items: seq<StringItem>) returns (s': State)
    requires !s.done && s.phase == SeekValue
    ensures Runs(s, LiteralText(items), s',
                 PieceEvents(s.currentKey, items) + [ValueComplete(s.currentKey, Str(Units(items)))])
    ensures !s'.done && s'.phase == BetweenKeys
  {
    hide Runs;
    var key := s.currentKey;
    var s1 := Consume(s, QUOTE).state;
    var s2 := s1.(stringParts := SingleUnits(items));
    RunsOne(s, QUOTE);
    RunsItems(s1, items);
    TakenString(s1, items);
    assert [] + SingleUnits(items) == SingleUnits(items);
    RunsQuietThen(s, [QUOTE], s1, ItemsText(items), s2, PieceEvents(key, items));
    ConcatSingleUnits(items);
    s' := Consume(s2, QUOTE).state;
    RunsOne(s2, QUOTE);
    RunsThen(s, [QUOTE] + ItemsText(items), s2, PieceEvents(key, items), [QUOTE], s', [ValueComplete(key, Str(Units(items)))]);
  }

  // --- nested raw values --------------------------------------------------

  /** Inside a nested value, outside its strings. */
  predicate InNested(s: State) {
    !s.done && s.phase == InRaw && s.nestDepth > 0 && !s.inNestString && !s.nestEscape
  }

  function Buffered(s: State, text: Text): State {
    s.(rawBuf := s.rawBuf + text)
  }

  lemma BufferedThen(s: State, a: Text, b: Text)
    requires Runs(s, a, Buffered(s, a), []) && Runs(Buffered(s, a), b, Buffered(Buffered(s, a), b), [])
    ensures Runs(s, a + b, Buffered(s, a + b), [])
  {
    hide Runs;
    RunsQuietThen(s, a, Buffered(s, a), b, Buffered(Buffered(s, a), b), []);
    assert s.rawBuf + a + b == s.rawBuf + (a + b);
  }

  /** A character that opens nothing and shuts nothing. */
  predicate Inert(c: CodePoint) { c != QUOTE && !Opens(c) && !Shuts(c) }

  lemma {:induction false} RunsInert(s: State, text: Text)
    requires InNested(s)
    requires forall i :: 0 <= i < |text| ==> Inert(text[i])
    ensures Runs(s, text, Buffered(s, text), [])
    decreases text
  {
    hide Runs;
    if text == [] {
      assert s.rawBuf + text == s.rawBuf;
      RunsNone(s);
    } else {
      RunsOne(s, text[0]);
      RunsInert(Buffered(s, [text[0]]), text[1..]);
      BufferedThen(s, [text[0]], text[1..]);
      assert [text[0]] + text[1..] == text;
    }
  }

  predicate InNestedString(s: State) {
    !s.done && s.phase == InRaw && s.nestDepth > 0 && s.inNestString && !s.nestEscape
  }

  lemma RunsNestedPlain(s: State, c: CodePoint)
    requires InNestedString(s) && c != QUOTE && c != BACKSLASH
    ensures Runs(s, [c], Buffered(s, [c]), [])
  {
    hide Runs;
    RunsOne(s, c);
  }

  lemma RunsNestedEscape(s: State, c: CodePoint)
    requires InNestedString(s)
    ensures Runs(s, [BACKSLASH, c], Buffered(s, [BACKSLASH, c]), [])
  {
    hide Runs;
    var s1 := Consume(s, BACKSLASH).state;
    RunsOne(s, BACKSLASH);
    RunsOne(s1, c);
    assert s.rawBuf + [BACKSLASH] + [c] == s.rawBuf + [BACKSLASH, c];
    RunsQuietThen(s, [BACKSLASH], s1, [c], Buffered(s, [BACKSLASH, c]), []);
    assert [BACKSLASH] + [c] == [BACKSLASH, c];
  }

  lemma RunsNestedItem(s: State, item: StringItem)
    requires InNestedString(s)
    ensures Runs(s, ItemText(item), Buffered(s, ItemText(item)), [])
  {
    hide Runs;
    match item {
      case Plain(c) => RunsNestedPlain(s, c);
      case Escaped(c) => RunsNestedEscape(s, c);
      case Unicode(hex) =>
        RunsNestedEscape(s, LOWER_U);
        RunsNestedHex(Buffered(s, [BACKSLASH, LOWER_U]), hex);
        BufferedThen(s, [BACKSLASH, LOWER_U], hex);
    }
  }

  lemma {:induction false} RunsNestedHex(s: State, text: Text)
    requires InNestedString(s)
    requires forall i :: 0 <= i < |text| ==> IsHexDigit(text[i])
    ensures Runs(s, text, Buffered(s, text), [])
    decreases text
  {
    hide Runs;
    if text == [] {
      assert s.rawBuf + text == s.rawBuf;
      RunsNone(s);
    } else {
      RunsNestedPlain(s, text[0]);
      RunsNestedHex(Buffered(s, [text[0]]), text[1..]);
      BufferedThen(s, [text[0]], text[1..]);
      assert [text[0]] + text[1..] == text;
    }
  }

  lemma {:induction false} RunsNestedItems(s: State, items: seq<StringItem>)
    requires InNestedString(s)
    ensures Runs(s, ItemsText(items), Buffered(s, ItemsText(items)), [])
    decreases items
  {
    hide Runs;
    if items == [] {
      assert s.rawBuf + [] == s.rawBuf;
      RunsNone(s);
    } else {
      RunsNestedItem(s, items[0]);
      RunsNestedItems(Buffered(s, ItemText(items[0])), items[1..]);
      BufferedThen(s, ItemText(items[0]), ItemsText(items[1..]));
    }
  }

  lemma RunsNestedLiteral(s: State, items: seq<StringItem>)
    requires InNested(s)
    ensures Runs(s, LiteralText(items), Buffered(s, LiteralText(items)), [])
  {
    hide Runs;
    var text := [QUOTE] + ItemsText(items);
    var s1 := Buffered(s, [QUOTE]).(inNestString := true);
    var s2 := Buffered(s1, ItemsText(items));
    RunsOne(s, QUOTE);
    RunsNestedItems(s1, items);
    RunsQuietThen(s, [QUOTE], s1, ItemsText(items), s2, []);
    RunsOne(s2, QUOTE);
    assert s.rawBuf + [QUOTE] + ItemsText(items) + [QUOTE] == s.rawBuf + LiteralText(items);
    RunsQuietThen(s, text, s2, [QUOTE], Buffered(s, LiteralText(items)), []);
  }

  /** A character that can stand in a scalar: inert and no delimiter. */
  predicate ScalarChar(c: CodePoint) { Inert(c) && !IsSpace(c) && c != COMMA }

  lemma LiteralWord(word: string)
    requires forall i :: 0 <= i < |word| ==> 'a' <= word[i] <= 'z' || word[i] in {'N', 'I', '-'}
    ensures forall i :: 0 <= i < |word| ==> ScalarChar(Lit(word)[i])
  {
  }

  lemma WordIsScalar(word: Word)
    ensures forall i :: 0 <= i < |word| ==> ScalarChar(word[i])
  {
    if !IsNumber(word) {
      LiteralWord("null");
      LiteralWord("true");
      LiteralWord("false");
      LiteralWord("NaN");
      LiteralWord("Infinity");
      LiteralWord("-Infinity");
    }
  }

  /** What stands between an opening bracket and its match. */
  function Inner(s: Syntax): Text
    requires !s.Scalar? && !s.Literal?
  {
    match s
    case EmptyArray(pad) => pad
    case Array(elems) => ElemsText(elems)
    case EmptyObject(pad) => pad
    case Object(members) => MembersText(members)
  }

  function Opener(s: Syntax): CodePoint { if s.EmptyArray? || s.Array? then LBRACKET else LBRACE }

  function Closer(s: Syntax): CodePoint { if s.EmptyArray? || s.Array? then RBRACKET else RBRACE }

  /** Any value nested inside a nested value is buffered verbatim and leaves the brackets as they were. */
  lemma {:induction false} RunsNested(s: State, v: Syntax)
    requires InNested(s) && s.nestDepth == |s.nestStack|
    ensures Runs(s, SyntaxText(v), Buffered(s, SyntaxText(v)), [])
    decreases v, 1
  {
    hide Runs;
    if v.Scalar? {
      WordIsScalar(v.word);
      RunsInert(s, v.word);
    } else if v.Literal? {
      RunsNestedLiteral(s, v.items);
    } else {
      RunsInner(Opened(s, Opener(v)), v);
      RunsBracketed(s, Opener(v), Inner(v), Closer(v));
    }
  }

  function Opened(s: State, open: CodePoint): State {
    Buffered(s, [open]).(nestDepth := s.nestDepth + 1, nestStack := s.nestStack + [open])
  }

  lemma RunsBracketed(s: State, open: CodePoint, inner: Text, shut: CodePoint)
    requires InNested(s) && s.nestDepth == |s.nestStack| && Opens(open) && Shuts(shut)
    requires Runs(Opened(s, open), inner, Buffered(Opened(s, open), inner), [])
    ensures Runs(s, [open] + inner + [shut], Buffered(s, [open] + inner + [shut]), [])
  {
    hide Runs;
    var s1 := Opened(s, open);
    var s2 := Buffered(s1, inner);
    RunsOne(s, open);
    RunsQuietThen(s, [open], s1, inner, s2, []);
    RunsOne(s2, shut);
    assert s1.nestStack[..|s1.nestStack| - 1] == s.nestStack;
    Grouped(s.rawBuf, open, inner, shut);
    RunsQuietThen(s, [open] + inner, s2, [shut], Buffered(s, [open] + inner + [shut]), []);
  }

  lemma Grouped(buf: Text, open: CodePoint, inner: Text, shut: CodePoint)
    ensures buf + [open] + inner + [shut] == buf + ([open] + inner + [shut])
  {
  }

  lemma {:induction false} RunsInner(s: State, v: Syntax)
    requires !v.Scalar? && !v.Literal?
    requires InNested(s) && s.nestDepth == |s.nestStack|
    ensures Runs(s, Inner(v), Buffered(s, Inner(v)), [])
    decreases v, 0
  {
    hide Runs;
    match v {
      case EmptyArray(pad) => RunsInert(s, pad);
      case Array(elems) => RunsNestedElems(s, elems);
      case EmptyObject(pad) => RunsInert(s, pad);
      case Object(members) => RunsNestedMembers(s, members);
    }
  }

  lemma {:induction false} RunsNestedElem(s: State, e: Elem)
    requires InNested(s) && s.nestDepth == |s.nestStack|
    ensures Runs(s, ElemText(e), Buffered(s, ElemText(e)), [])
    decreases e
  {
    hide Runs;
    RunsInert(s, e.before);
    RunsNested(Buffered(s, e.before), e.value);
    BufferedThen(s, e.before, SyntaxText(e.value));
    RunsInert(Buffered(s, e.before + SyntaxText(e.value)), e.after);
    BufferedThen(s, e.before + SyntaxText(e.value), e.after);
  }

  lemma {:induction false} RunsNestedElems(s: State, es: Elems)
    requires InNested(s) && s.nestDepth == |s.nestStack|
    ensures Runs(s, ElemsText(es), Buffered(s, ElemsText(es)), [])
    decreases es
  {
    hide Runs;
    RunsNestedElem(s, es.e);
    if es.MoreElems? {
      var first := ElemText(es.e);
      RunsInert(Buffered(s, first), [COMMA]);
      BufferedThen(s, first, [COMMA]);
      RunsNestedElems(Buffered(s, first + [COMMA]), es.rest);
      BufferedThen(s, first + [COMMA], ElemsText(es.rest));
    }
  }

  lemma {:induction false} RunsNestedEntry(s: State, m: Entry)
    requires InNested(s) && s.nestDepth == |s.nestStack|
    ensures Runs(s, EntryText(m), Buffered(s, EntryText(m)), [])
    decreases m
  {
    hide Runs;
    var t0 := m.before;
    RunsInert(s, t0);
    RunsNestedLiteral(Buffered(s, t0), m.key);
    BufferedThen(s, t0, LiteralText(m.key));
    var t1 := t0 + LiteralText(m.key);
    var colon := m.beforeColon + [COLON] + m.afterColon;
    RunsInert(Buffered(s, t1), colon);
    BufferedThen(s, t1, colon);
    RunsNested(Buffered(s, t1 + colon), m.value);
    BufferedThen(s, t1 + colon, SyntaxText(m.value));
    var t2 := t1 + colon + SyntaxText(m.value);
    RunsInert(Buffered(s, t2), m.after);
    BufferedThen(s, t2, m.after);
    assert t2 + m.after == EntryText(m);
  }

  lemma {:induction false} RunsNestedMembers(s: State, ms: Members)
    requires InNested(s) && s.nestDepth == |s.nestStack|
    ensures Runs(s, MembersText(ms), Buffered(s, MembersText(ms)), [])
    decreases ms
  {
    hide Runs;
    RunsNestedEntry(s, ms.m);
    if ms.MoreMembers? {
      var first := EntryText(ms.m);
      RunsInert(Buffered(s, first), [COMMA]);
      BufferedThen(s, first, [COMMA]);
      RunsNestedMembers(Buffered(s, first + [COMMA]), ms.rest);
      BufferedThen(s, first + [COMMA], MembersText(ms.rest));
    }
  }

  lemma RawValueOfSyntax(v: Syntax)
    ensures RawValue(SyntaxText(v)) == SyntaxValue(v)
  {
    LoadsLegalText([], v, []);
    assert [] + SyntaxText(v) + [] == SyntaxText(v);
  }

  /** A top-level array or object: one event, whose raw text was captured exactly. */
  lemma RunsContainer(s: State, v: Syntax) returns (s': State)
    requires !s.done && s.phase == SeekValue && !v.Scalar? && !v.Literal?
    ensures Runs(s, SyntaxText(v), s', [ValueComplete(s.currentKey, SyntaxValue(v))])
    ensures !s'.done && s'.phase == BetweenKeys
  {
    hide Runs;
    var open, shut, inner := Opener(v), Closer(v), Inner(v);
    var s1 := Consume(s, open).state;
    var s2 := Buffered(s1, inner);
    RunsOne(s, open);
    RunsInner(s1, v);
    RunsQuietThen(s, [open], s1, inner, s2, []);
    RunsOne(s2, shut);
    assert s2.rawBuf + [shut] == SyntaxText(v);
    RawValueOfSyntax(v);
    s' := Consume(s2, shut).state;
    RunsQuietThen(s, [open] + inner, s2, [shut], s', [ValueComplete(s.currentKey, SyntaxValue(v))]);
  }

  lemma {:induction false} RunsScalarTail(s: State, text: Text)
    requires !s.done && s.phase == InRaw && s.nestDepth == 0
    requires forall i :: 0 <= i < |text| ==> ScalarChar(text[i])
    ensures Runs(s, text, Buffered(s, text), [])
    decreases text
  {
    hide Runs;
    if text == [] {
      assert s.rawBuf + text == s.rawBuf;
      RunsNone(s);
    } else {
      RunsOne(s, text[0]);
      RunsScalarTail(Buffered(s, [text[0]]), text[1..]);
      BufferedThen(s, [text[0]], text[1..]);
      assert [text[0]] + text[1..] == text;
    }
  }

  predicate IsDelimiter(c: CodePoint) { IsWs(c) || c == COMMA || c == RBRACE }

  /** A top-level scalar is complete only at the delimiter behind it, which is then read as usual. */
  lemma RunsScalar(s: State, word: Word, delimiter: CodePoint) returns (mid: State)
    requires !s.done && s.phase == SeekValue && IsDelimiter(delimiter)
    ensures !mid.done && mid.phase == BetweenKeys
    ensures Runs(s, word + [delimiter], ConsumeBetweenKeys(mid, delimiter).state,
                 [ValueComplete(s.currentKey, WordValue(word))] + ConsumeBetweenKeys(mid, delimiter).events)
  {
    hide Runs;
    WordIsScalar(word);
    RawValueOfSyntax(Scalar(word));
    var s1 := Consume(s, word[0]).state;
    var s2 := Buffered(s1, word[1..]);
    RunsOne(s, word[0]);
    RunsScalarTail(s1, word[1..]);
    RunsQuietThen(s, [word[0]], s1, word[1..], s2, []);
    assert [word[0]] + word[1..] == word;
    assert s2.rawBuf == word;
    mid := FinishRaw(s2).state;
    RunsOne(s2, delimiter);
    var step := Consume(s2, delimiter);
    RunsQuietThen(s, word, s2, [delimiter], step.state, step.events);
  }

  // --- whole objects ------------------------------------------------------

  function ValueEvents(key: Text, v: Syntax): seq<Event> {
    (if v.Literal? then PieceEvents(key, v.items) else []) + [ValueComplete(key, StreamedValue(v))]
  }

  /** Padding and the delimiter that ends a member, read between two members. */
  lemma RunsDelimiter(s: State, pad: Padding, delimiter: CodePoint)
    requires !s.done && s.phase == BetweenKeys && (delimiter == COMMA || delimiter == RBRACE)
    ensures Runs(s, pad + [delimiter], ConsumeBetweenKeys(s, delimiter).state, ConsumeBetweenKeys(s, delimiter).events)
  {
    hide Runs;
    RunsPadding(s, pad);
    RunsOne(s, delimiter);
    var step := Consume(s, delimiter);
    RunsQuietThen(s, pad, s, [delimiter], step.state, step.events);
  }

  lemma RunsScalarValue(s: State, word: Word, pad: Padding, delimiter: CodePoint) returns (mid: State)
    requires !s.done && s.phase == SeekValue && (delimiter == COMMA || delimiter == RBRACE)
    ensures !mid.done && mid.phase == BetweenKeys
    ensures Runs(s, word + (pad + [delimiter]), ConsumeBetweenKeys(mid, delimiter).state,
                 [ValueComplete(s.currentKey, WordValue(word))] + ConsumeBetweenKeys(mid, delimiter).events)
  {
    hide Runs;
    var events := [ValueComplete(s.currentKey, WordValue(word))];
    if pad == [] {
      mid := RunsScalar(s, word, delimiter);
      assert word + (pad + [delimiter]) == word + [delimiter];
    } else {
      var first, more := pad[0], pad[1..] + [delimiter];
      mid := RunsScalar(s, word, first);
      assert ConsumeBetweenKeys(mid, first) == Step(mid, []) && events + [] == events;
      assert Runs(s, word + [first], mid, events);
      RunsDelimiter(mid, pad[1..], delimiter);
      var end := ConsumeBetweenKeys(mid, delimiter);
      RunsThen(s, word + [first], mid, events, more, end.state, end.events);
      PadSplit(word, pad, delimiter);
    }
  }

  lemma PadSplit(word: Text, pad: Text, delimiter: CodePoint)
    requires pad != []
    ensures word + (pad + [delimiter]) == word + [pad[0]] + (pad[1..] + [delimiter])
  {
    assert pad == [pad[0]] + pad[1..];
  }

  lemma RunsValue(s: State, v: Syntax, pad: Padding, delimiter: CodePoint) returns (mid: State)
    requires !s.done && s.phase == SeekValue && (delimiter == COMMA || delimiter == RBRACE)
    ensures !mid.done && mid.phase == BetweenKeys
    ensures Runs(s, SyntaxText(v) + (pad + [delimiter]), ConsumeBetweenKeys(mid, delimiter).state,
                 ValueEvents(s.currentKey, v) + ConsumeBetweenKeys(mid, delimiter).events)
  {
    hide Runs;
    var events := ValueEvents(s.currentKey, v);
    var complete := [ValueComplete(s.currentKey, StreamedValue(v))];
    if v.Scalar? {
      mid := RunsScalarValue(s, v.word, pad, delimiter);
      assert events == complete;
    } else {
      assert v.Literal? || events == complete;
      if v.Literal? { mid := RunsString(s, v.items); } else { mid := RunsContainer(s, v); }
      assert Runs(s, SyntaxText(v), mid, events);
      RunsDelimiter(mid, pad, delimiter);
      var end := ConsumeBetweenKeys(mid, delimiter);
      RunsThen(s, SyntaxText(v), mid, events, pad + [delimiter], end.state, end.events);
    }
  }

  lemma RunsEntry(s: State, m: Entry, delimiter: CodePoint) returns (mid: State)
    requires !s.done && s.phase == BetweenKeys && (delimiter == COMMA || delimiter == RBRACE)
    ensures !mid.done && mid.phase == BetweenKeys
    ensures Runs(s, EntryText(m) + [delimiter], ConsumeBetweenKeys(mid, delimiter).state,
                 EntryEvents(m) + ConsumeBetweenKeys(mid, delimiter).events)
  {
    hide Runs;
    var key := Units(m.key);
    RunsPadding(s, m.before);
    var s1 := RunsKey(s, m.key);
    RunsQuietThen(s, m.before, s, LiteralText(m.key), s1, [KeyReady(key)]);
    RunsPadding(s1, m.beforeColon);
    RunsThenQuiet(s, m.before + LiteralText(m.key), s1, [KeyReady(key)], m.beforeColon, s1);
    var s2 := Consume(s1, COLON).state;
    RunsOne(s1, COLON);
    RunsThenQuiet(s, m.before + LiteralText(m.key) + m.beforeColon, s1, [KeyReady(key)], [COLON], s2);
    RunsPadding(s2, m.afterColon);
    var head := m.before + LiteralText(m.key) + m.beforeColon + [COLON] + m.afterColon;
    RunsThenQuiet(s, m.before + LiteralText(m.key) + m.beforeColon + [COLON], s2, [KeyReady(key)], m.afterColon, s2);
    mid := RunsValue(s2, m.value, m.after, delimiter);
    var end := ConsumeBetweenKeys(mid, delimiter);
    var tail := SyntaxText(m.value) + (m.after + [delimiter]);
    RunsThen(s, head, s2, [KeyReady(key)], tail, end.state, ValueEvents(key, m.value) + end.events);
    assert head + tail == EntryText(m) + [delimiter];
    assert [KeyReady(key)] + (ValueEvents(key, m.value) + end.events) == EntryEvents(m) + end.events;
  }

  lemma {:induction false} RunsMembers(s: State, ms: Members) returns (s': State)
    requires !s.done && s.phase == BetweenKeys
    ensures Runs(s, MembersText(ms) + [RBRACE], s', MembersEvents(ms) + [ObjectDone])
    ensures s'.done
    decreases ms
  {
    hide Runs;
    if ms.OneMember? {
      var mid := RunsEntry(s, ms.m, RBRACE);
      s' := ConsumeBetweenKeys(mid, RBRACE).state;
    } else {
      var mid := RunsEntry(s, ms.m, COMMA);
      s' := RunsMembers(mid, ms.rest);
      assert EntryEvents(ms.m) + [] == EntryEvents(ms.m);
      RunsThen(s, EntryText(ms.m) + [COMMA], mid, EntryEvents(ms.m), MembersText(ms.rest) + [RBRACE], s', MembersEvents(ms.rest) + [ObjectDone]);
      assert EntryText(ms.m) + [COMMA] + (MembersText(ms.rest) + [RBRACE]) == MembersText(ms) + [RBRACE];
      assert EntryEvents(ms.m) + (MembersEvents(ms.rest) + [ObjectDone]) == MembersEvents(ms) + [ObjectDone];
    }
  }

  lemma RunsObject(s: State, doc: Syntax) returns (s': State)
    requires !s.done && s.phase == SeekObject && (doc.EmptyObject? || doc.Object?)
    ensures Runs(s, SyntaxText(doc), s', ObjectEvents(doc))
    ensures s'.done
  {
    hide Runs;
    var s1 := s.(phase := BetweenKeys);
    RunsOne(s, LBRACE);
    if doc.Object? {
      s' := RunsMembers(s1, doc.members);
    } else {
      RunsDelimiter(s1, doc.pad, RBRACE);
      s' := ConsumeBetweenKeys(s1, RBRACE).state;
      assert ObjectEvents(doc) == [ObjectDone];
    }
    RunsQuietThen(s, [LBRACE], s1, Inner(doc) + [RBRACE], s', ObjectEvents(doc));
    assert [LBRACE] + (Inner(doc) + [RBRACE]) == SyntaxText(doc);
  }

  /**
   Every legal text of every JSON object, in any chunks and with anything after it: the streamer
   reports its members in order, then `ObjectDone`, and is done.
   */
  lemma LegalObjectEvents(before: Padding, s: Syntax, after: Text, chunks: seq<Text>)
    requires s.EmptyObject? || s.Object?
    requires Concat(chunks) == before + SyntaxText(s) + after
    ensures FeedAll(INITIAL, chunks).events == ObjectEvents(s)
    ensures FeedAll(INITIAL, chunks).state.done
  {
    ChunkingIsIrrelevant(INITIAL, chunks);
    var start := INITIAL;
    RunsPadding(start, before);
    var end := RunsObject(start, s);
    RunsQuietThen(start, before, start, SyntaxText(s), end, ObjectEvents(s));
    RunsThenQuiet(start, before + SyntaxText(s), end, ObjectEvents(s), after, end);
  }

  /**
   Malformed input: between members everything but a quote or a closing brace is skipped, after a key
   everything but a colon, and a text that does not start with an object tells nothing at all.
   */
  lemma {:induction false} JunkIsSkipped(s: State, junk: Text)
    requires !s.done
    requires s.phase == BetweenKeys || s.phase == AfterKey
    requires s.phase == BetweenKeys ==> QUOTE !in junk && RBRACE !in junk
    requires s.phase == AfterKey ==> COLON !in junk
    ensures Runs(s, junk, s, [])
    decreases junk
  {
    hide Runs;
    if junk == [] {
      RunsNone(s);
    } else {
      RunsOne(s, junk[0]);
      JunkIsSkipped(s, junk[1..]);
      RunsQuietThen(s, [junk[0]], s, junk[1..], s, []);
      assert [junk[0]] + junk[1..] == junk;
    }
  }

  lemma NoObjectTellsNothing(spaces: Text, first: CodePoint, rest: Text, chunks: seq<Text>)
    requires (forall i :: 0 <= i < |spaces| ==> IsSpace(spaces[i])) && !IsSpace(first) && first != LBRACE
    requires Concat(chunks) == spaces + [first] + rest
    ensures FeedAll(INITIAL, chunks).events == [] && FeedAll(INITIAL, chunks).state.done
  {
    ChunkingIsIrrelevant(INITIAL, chunks);
    var start := INITIAL;
    var end := start.(phase := Finished, done := true);
    SpacesAreSkipped(start, spaces);
    RunsOne(start, first);
    RunsQuietThen(start, spaces, start, [first], end, []);
    RunsThenQuiet(start, spaces + [first], end, [], rest, end);
  }

  lemma {:induction false} SpacesAreSkipped(s: State, spaces: Text)
    requires !s.done && s.phase == SeekObject && forall i :: 0 <= i < |spaces| ==> IsSpace(spaces[i])
    ensures Runs(s, spaces, s, [])
    decreases spaces
  {
    hide Runs;
    if spaces == [] {
      RunsNone(s);
    } else {
      RunsOne(s, spaces[0]);
      SpacesAreSkipped(s, spaces[1..]);
      RunsQuietThen(s, [spaces[0]], s, spaces[1..], s, []);
      assert [spaces[0]] + spaces[1..] == spaces;
    }
  }

  /** The streamed value of a string is the value `json.loads` gives it exactly when no escaped surrogate pair is in it. */
  lemma {:induction false} StreamedStringIsLoaded(items: seq<StringItem>)
    ensures |StringValue(items)| <= |items|
    ensures Units(items) == StringValue(items) <==> forall i :: 0 <= i < |items| ==> !PairAt(items, i)
    decreases |items|
  {
    if items == [] {
    } else if PairAt(items, 0) {
      StreamedStringIsLoaded(items[2..]);
      assert |StringValue(items)| < |items| == |Units(items)|;
    } else {
      var rest := items[1..];
      StreamedStringIsLoaded(rest);
      assert Units(items)[1..] == Units(rest) && StringValue(items)[1..] == StringValue(rest);
      assert forall i :: 0 <= i < |rest| ==> (PairAt(rest, i) <==> PairAt(items, i + 1));
      if forall i :: 0 <= i < |rest| ==> !PairAt(rest, i) {
        forall i | 0 <= i < |items| ensures !PairAt(items, i) {
          if i > 0 { assert !PairAt(rest, i - 1); }
        }
      } else {
        var i :| 0 <= i < |rest| && PairAt(rest, i);
        assert PairAt(items, i + 1);
      }
    }
  }

  /** `{"a": "\uD83D\uDE00"}`: the streamed value has two characters, the loaded one has one. */
  lemma SurrogatePairDiffers()
    ensures var items: seq<StringItem> := [Unicode(Lit("D83D")), Unicode(Lit("DE00"))];
      Units(items) == [0xD83D, 0xDE00] && StringValue(items) == [0x1_F600]
  {
    var high, low := Unicode(Lit("D83D")), Unicode(Lit("DE00"));
    assert Hex4(high.hex) == 0xD83D && Hex4(low.hex) == 0xDE00;
    var items: seq<StringItem> := [high, low];
    assert items[1..] == [low] && items[2..] == [];
    assert PairAt(items, 0);
  }
}
