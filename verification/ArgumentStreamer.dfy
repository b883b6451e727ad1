/**
 The incremental walker over a streamed JSON object: `State`, `Consume` and `Feed` say what one
 character and one chunk do; the class is the streamer itself, proved against them.
 */
module ArgumentStreamer {
  import opened PyText
  import opened Sequences
  import opened Json
  import opened JsonLoads

  datatype Phase = SeekObject | BetweenKeys | InKey | AfterKey | SeekValue | InString | InRaw | Finished

  datatype Event =
    | KeyReady(key: Text)
    | StringChars(key: Text, text: Text)
    | ValueComplete(key: Text, value: Json)
    | ObjectDone

  datatype Decoded = Closed | Pending | Chars(text: Text)

  datatype State = State(
    phase: Phase,
    keyBuf: Text,
    escape: bool,
    hexLeft: nat,
    hexBuf: Text,
    currentKey: Text,
    stringParts: seq<Text>,
    rawBuf: Text,
    nestDepth: int,
    nestStack: Text,
    inNestString: bool,
    nestEscape: bool,
    done: bool)

  datatype Step = Step(state: State, events: seq<Event>)

  const INITIAL := State(SeekObject, [], false, 0, [], [], [], [], 0, [], false, false, false)

  /** What `chr(int(buf, 16))` gives when `buf` is not four hex digits (`""` when either call raises). */
  const LenientHex: Text -> Text

  function HexChars(buf: Text): Text {
    if IsHex4(buf) then [Hex4(buf)] else LenientHex(buf)
  }

  function DecodeStringChar(s: State, ch: CodePoint): (State, Decoded) {
    if s.hexLeft > 0 then
      var buf := s.hexBuf + [ch];
      if s.hexLeft == 1 then (s.(hexLeft := 0, hexBuf := []), Chars(HexChars(buf)))
      else (s.(hexLeft := s.hexLeft - 1, hexBuf := buf), Pending)
    else if s.escape then
      if ch == LOWER_U then (s.(escape := false, hexLeft := 4, hexBuf := []), Pending)
      else (s.(escape := false), Chars([Unescape(ch)]))
    else if ch == BACKSLASH then (s.(escape := true), Pending)
    else if ch == QUOTE then (s, Closed)
    else (s, Chars([ch]))
  }

  /** The value a finished raw text stands for: itself, as a string, when it is not JSON. */
  function RawValue(raw: Text): Json {
    match Loads(raw)
    case Fail => Str(raw)
    case Ok(v, _) => v
  }

  function FinishRaw(s: State): Step {
    Step(s.(rawBuf := [], phase := BetweenKeys), [ValueComplete(s.currentKey, RawValue(s.rawBuf))])
  }

  predicate Opens(ch: CodePoint) { ch == LBRACE || ch == LBRACKET }

  predicate Shuts(ch: CodePoint) { ch == RBRACE || ch == RBRACKET }

  function ConsumeBetweenKeys(s: State, ch: CodePoint): Step {
    if IsSpace(ch) || ch == COMMA then Step(s, [])
    else if ch == RBRACE then Step(s.(phase := Finished, done := true), [ObjectDone])
    else if ch == QUOTE then Step(s.(phase := InKey, keyBuf := [], escape := false, hexLeft := 0, hexBuf := []), [])
    else Step(s, [])
  }

  function ConsumeNested(s: State, ch: CodePoint): Step {
    var s := s.(rawBuf := s.rawBuf + [ch]);
    if s.inNestString then
      if s.nestEscape then Step(s.(nestEscape := false), [])
      else if ch == BACKSLASH then Step(s.(nestEscape := true), [])
      else if ch == QUOTE then Step(s.(inNestString := false), [])
      else Step(s, [])
    else if ch == QUOTE then Step(s.(inNestString := true), [])
    else if Opens(ch) then Step(s.(nestDepth := s.nestDepth + 1, nestStack := s.nestStack + [ch]), [])
    else if Shuts(ch) then
      var stack := if s.nestStack == [] then [] else s.nestStack[..|s.nestStack| - 1];
      var s := s.(nestDepth := s.nestDepth - 1, nestStack := stack);
      if s.nestDepth == 0 then FinishRaw(s) else Step(s, [])
    else Step(s, [])
  }

  function ConsumeRaw(s: State, ch: CodePoint): Step {
    if s.nestDepth > 0 then ConsumeNested(s, ch)
    else if IsSpace(ch) || ch == COMMA || ch == RBRACE then
      var finish := FinishRaw(s);
      var more := ConsumeBetweenKeys(finish.state, ch);
      Step(more.state, finish.events + more.events)
    else Step(s.(rawBuf := s.rawBuf + [ch]), [])
  }

  function ConsumeTopString(s: State, ch: CodePoint): Step {
    var (s, decoded) := DecodeStringChar(s, ch);
    match decoded
    case Closed => Step(s.(phase := BetweenKeys, stringParts := []), [ValueComplete(s.currentKey, Str(Concat(s.stringParts)))])
    case Chars(text) => Step(s.(stringParts := s.stringParts + [text]), [StringChars(s.currentKey, text)])
    case Pending => Step(s, [])
  }

  function ConsumeKey(s: State, ch: CodePoint): Step {
    var (s, decoded) := DecodeStringChar(s, ch);
    match decoded
    case Closed => Step(s.(currentKey := s.keyBuf, phase := AfterKey), [KeyReady(s.keyBuf)])
    case Chars(text) => Step(s.(keyBuf := s.keyBuf + text), [])
    case Pending => Step(s, [])
  }

  function ConsumeSeekValue(s: State, ch: CodePoint): Step {
    if IsSpace(ch) then Step(s, [])
    else if ch == QUOTE then
      Step(s.(phase := InString, stringParts := [], escape := false, hexLeft := 0, hexBuf := []), [])
    else
      var s := s.(phase := InRaw, rawBuf := [ch], inNestString := false, nestEscape := false);
      if Opens(ch) then Step(s.(nestDepth := 1, nestStack := [ch]), [])
      else Step(s.(nestDepth := 0, nestStack := []), [])
  }

  function Consume(s: State, ch: CodePoint): Step {
    match s.phase
    case SeekObject =>
      if IsSpace(ch) then Step(s, [])
      else if ch == LBRACE then Step(s.(phase := BetweenKeys), [])
      else Step(s.(phase := Finished, done := true), [])
    case BetweenKeys => ConsumeBetweenKeys(s, ch)
    case InKey => ConsumeKey(s, ch)
    case AfterKey => Step(if ch == COLON then s.(phase := SeekValue) else s, [])
    case SeekValue => ConsumeSeekValue(s, ch)
    case InString => ConsumeTopString(s, ch)
    case InRaw => ConsumeRaw(s, ch)
    case Finished => Step(s, [])
  }

  function Feed(s: State, chunk: Text): Step
    decreases chunk
  {
    if s.done || chunk == [] then Step(s, [])
    else
      var first := Consume(s, chunk[0]);
      var rest := Feed(first.state, chunk[1..]);
      Step(rest.state, first.events + rest.events)
  }

  function FeedAll(s: State, chunks: seq<Text>): Step
    decreases chunks
  {
    if chunks == [] then Step(s, [])
    else
      var first := Feed(s, chunks[0]);
      var rest := FeedAll(first.state, chunks[1..]);
      Step(rest.state, first.events + rest.events)
  }

  // --- chunking -----------------------------------------------------------

  lemma {:induction false} FeedConcat(s: State, a: Text, b: Text)
    ensures Feed(s, a + b) ==
            Step(Feed(Feed(s, a).state, b).state, Feed(s, a).events + Feed(Feed(s, a).state, b).events)
    decreases a
  {
    hide Consume, Feed;
    FeedNothing(s, []);
    if s.done {
      FeedNothing(s, a);
      FeedNothing(s, b);
      FeedNothing(s, a + b);
    } else if a == [] {
      assert a + b == b;
      LeftEmpty(Feed(s, b).events);
    } else {
      var one := Consume(s, a[0]);
      FeedStep(s, a);
      FeedStep(s, a + b);
      var more := Feed(one.state, a[1..]);
      var last := Feed(more.state, b);
      FeedConcat(one.state, a[1..], b);
      assert (a + b)[0] == a[0] && (a + b)[1..] == a[1..] + b;
      Associative(one.events, more.events, last.events);
    }
  }

  lemma FeedStep(s: State, text: Text)
    requires !s.done && text != []
    ensures var first := Consume(s, text[0]); var rest := Feed(first.state, text[1..]);
      Feed(s, text) == Step(rest.state, first.events + rest.events)
  {
    hide Consume;
  }

  lemma FeedNothing(s: State, text: Text)
    requires s.done || text == []
    ensures Feed(s, text) == Step(s, [])
  {
  }

  /** However the text is cut into chunks, the events and the final state are those of one feed. */
  lemma {:induction false} ChunkingIsIrrelevant(s: State, chunks: seq<Text>)
    ensures FeedAll(s, chunks) == Feed(s, Concat(chunks))
    decreases chunks
  {
    if chunks != [] {
      ChunkingIsIrrelevant(Feed(s, chunks[0]).state, chunks[1..]);
      FeedConcat(s, chunks[0], Concat(chunks[1..]));
    }
  }

  lemma {:induction false} FeedSnoc(s: State, text: Text, ch: CodePoint)
    ensures var before := Feed(s, text);
      Feed(s, text + [ch]) ==
        if before.state.done then before
        else Step(Consume(before.state, ch).state, before.events + Consume(before.state, ch).events)
  {
    FeedConcat(s, text, [ch]);
    var before := Feed(s, text).state;
    if !before.done {
      assert Feed(Consume(before, ch).state, []) == Step(Consume(before, ch).state, []);
      assert [ch][1..] == [];
      assert Feed(before, [ch]) == Step(Consume(before, ch).state, Consume(before, ch).events + []);
    }
  }

  // --- the streamer object ------------------------------------------------

  class JsonObjectArgumentStreamer {
    var phase: Phase
    var keyBuf: Text
    var escape: bool
    var hexLeft: nat
    var hexBuf: Text
    var currentKey: Text
    var stringParts: seq<Text>
    var rawBuf: Text
    var nestDepth: int
    var nestStack: Text
    var inNestString: bool
    var nestEscape: bool
    var done: bool

    constructor ()
      ensures View() == INITIAL
    {
      phase, keyBuf, escape, hexLeft, hexBuf := SeekObject, [], false, 0, [];
      currentKey, stringParts, rawBuf, nestDepth, nestStack := [], [], [], 0, [];
      inNestString, nestEscape, done := false, false, false;
    }

    function View(): State
      reads this
    {
      State(phase, keyBuf, escape, hexLeft, hexBuf, currentKey, stringParts, rawBuf,
            nestDepth, nestStack, inNestString, nestEscape, done)
    }

    method FeedChunk(chunk: Text) returns (events: seq<Event>)
      modifies this
      ensures View() == Feed(old(View()), chunk).state
      ensures events == Feed(old(View()), chunk).events
    {
      events := [];
      if done || chunk == [] { return; }
      hide Feed, Consume;
      var i := 0;
      ghost var start := View();
      FeedNothing(start, chunk[..0]);
      while i < |chunk| && !done
        invariant 0 <= i <= |chunk|
        invariant Feed(start, chunk[..i]) == Step(View(), events)
      {
        var more := ConsumeChar(chunk[i]);
        FeedSnoc(start, chunk[..i], chunk[i]);
        assert chunk[..i + 1] == chunk[..i] + [chunk[i]];
        events := events + more;
        i := i + 1;
      }
      FeedConcat(start, chunk[..i], chunk[i..]);
      FeedNothing(View(), chunk[i..]);
      assert chunk == chunk[..i] + chunk[i..] && events + [] == events;
    }

    method ConsumeChar(ch: CodePoint) returns (events: seq<Event>)
      modifies this
      ensures View() == Consume(old(View()), ch).state
      ensures events == Consume(old(View()), ch).events
      decreases if phase.InRaw? then 1 else 0, 1
    {
      events := [];
      match phase {
        case SeekObject =>
          if IsSpace(ch) { return; }
          if ch == LBRACE { phase := BetweenKeys; return; }
          phase, done := Finished, true;
        case BetweenKeys => events := ConsumeBetweenKeysChar(ch);
        case InKey => events := ConsumeKeyChar(ch);
        case AfterKey =>
          if IsSpace(ch) { return; }
          if ch == COLON { phase := SeekValue; }
        case SeekValue => ConsumeSeekValueChar(ch);
        case InString => events := ConsumeTopStringChar(ch);
        case InRaw => events := ConsumeRawChar(ch);
        case Finished =>
      }
    }

    method ConsumeBetweenKeysChar(ch: CodePoint) returns (events: seq<Event>)
      modifies this
      ensures View() == ConsumeBetweenKeys(old(View()), ch).state
      ensures events == ConsumeBetweenKeys(old(View()), ch).events
    {
      events := [];
      if IsSpace(ch) || ch == COMMA { return; }
      if ch == RBRACE { phase, done := Finished, true; return [ObjectDone]; }
      if ch == QUOTE {
        phase, keyBuf, escape, hexLeft, hexBuf := InKey, [], false, 0, [];
      }
    }

    method ConsumeKeyChar(ch: CodePoint) returns (events: seq<Event>)
      modifies this
      ensures View() == ConsumeKey(old(View()), ch).state
      ensures events == ConsumeKey(old(View()), ch).events
    {
      events := [];
      var decoded := ConsumeStringChar(ch);
      if decoded.Closed? {
        currentKey, phase := keyBuf, AfterKey;
        return [KeyReady(currentKey)];
      }
      if !decoded.Pending? { keyBuf := keyBuf + decoded.text; }
    }

    method ConsumeSeekValueChar(ch: CodePoint)
      modifies this
      ensures Step(View(), []) == ConsumeSeekValue(old(View()), ch)
    {
      if IsSpace(ch) { return; }
      if ch == QUOTE {
        phase, stringParts, escape, hexLeft, hexBuf := InString, [], false, 0, [];
        return;
      }
      if ch == LBRACE || ch == LBRACKET {
        phase, rawBuf, nestDepth, nestStack := InRaw, [ch], 1, [ch];
        inNestString, nestEscape := false, false;
        return;
      }
      phase, rawBuf, nestDepth, nestStack := InRaw, [ch], 0, [];
      inNestString, nestEscape := false, false;
    }

    method ConsumeTopStringChar(ch: CodePoint) returns (events: seq<Event>)
      modifies this
      ensures View() == ConsumeTopString(old(View()), ch).state
      ensures events == ConsumeTopString(old(View()), ch).events
    {
      var decoded := ConsumeStringChar(ch);
      if decoded.Closed? {
        var value := Concat(stringParts);
        phase, stringParts := BetweenKeys, [];
        return [ValueComplete(currentKey, Str(value))];
      }
      if !decoded.Pending? {
        stringParts := stringParts + [decoded.text];
        return [StringChars(currentKey, decoded.text)];
      }
      events := [];
    }

    method ConsumeRawChar(ch: CodePoint) returns (events: seq<Event>)
      modifies this
      ensures View() == ConsumeRaw(old(View()), ch).state
      ensures events == ConsumeRaw(old(View()), ch).events
      decreases 1, 0
    {
      events := [];
      if nestDepth > 0 {
        events := ConsumeNestedChar(ch);
        return;
      }
      if IsSpace(ch) || ch == COMMA || ch == RBRACE {
        events := FinishRawValue();
        phase := BetweenKeys;
        var more := ConsumeChar(ch);
        return events + more;
      }
      rawBuf := rawBuf + [ch];
    }

    method ConsumeNestedChar(ch: CodePoint) returns (events: seq<Event>)
      modifies this
      ensures View() == ConsumeNested(old(View()), ch).state
      ensures events == ConsumeNested(old(View()), ch).events
    {
      hide FinishRaw;
      events := [];
      rawBuf := rawBuf + [ch];
      if inNestString {
        if nestEscape {
          nestEscape := false;
        } else if ch == BACKSLASH {
          nestEscape := true;
        } else if ch == QUOTE {
          inNestString := false;
        }
        return;
      }
      if ch == QUOTE { inNestString := true; return; }
      if ch == LBRACE || ch == LBRACKET {
        nestDepth, nestStack := nestDepth + 1, nestStack + [ch];
        return;
      }
      if ch == RBRACE || ch == RBRACKET {
        nestDepth := nestDepth - 1;
        if nestStack != [] { nestStack := nestStack[..|nestStack| - 1]; }
        if nestDepth == 0 { events := FinishRawValue(); }
      }
    }

    method FinishRawValue() returns (events: seq<Event>)
      modifies this
      ensures View() == FinishRaw(old(View())).state
      ensures events == FinishRaw(old(View())).events
    {
      var raw := rawBuf;
      rawBuf, phase := [], BetweenKeys;
      var loaded := Loads(raw);
      var value := if loaded.Ok? then loaded.value else Str(raw);
      return [ValueComplete(currentKey, value)];
    }

    method ConsumeStringChar(ch: CodePoint) returns (decoded: Decoded)
      modifies this
      ensures (View(), decoded) == DecodeStringChar(old(View()), ch)
    {
      if hexLeft > 0 {
        hexBuf := hexBuf + [ch];
        hexLeft := hexLeft - 1;
        if hexLeft == 0 {
          decoded := Chars(HexChars(hexBuf));
          hexBuf := [];
          return;
        }
        return Pending;
      }
      if escape {
        escape := false;
        if ch == LOWER_U {
          hexLeft, hexBuf := 4, [];
          return Pending;
        }
        return Chars([Unescape(ch)]);
      }
      if ch == BACKSLASH { escape := true; return Pending; }
      if ch == QUOTE { return Closed; }
      return Chars([ch]);
    }
  }
}
