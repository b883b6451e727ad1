/** What the live renderer shows of every input: balanced fences and, in JSON mode, one block of what was delivered. */
module ArgumentPresenterProofs {
  import opened PyText
  import opened Json
  import opened JsonLoads
  import opened JsonSyntax
  import opened JsonDumpsProofs
  import opened ParameterFormat
  import opened ArgumentStreamer
  import opened ArgumentStreamerProofs
  import opened ArgumentPresenter

  // --- chunks do not matter -----------------------------------------------

  lemma ApplyFinished(pr: Presentation, p: Sheet, l: Listener, e: Event)
    requires p.finished <==> l.Ended?
    requires Hear(l, e) != Broken
    ensures Apply(pr, p, e).finished <==> Hear(l, e).Ended?
  {
    hide ConfigStringChars, ConfigValueComplete, JsonStringChars, JsonValueComplete;
  }

  lemma {:induction false} HearBroken(events: seq<Event>)
    ensures HearAll(Broken, events) == Broken
    decreases events
  {
    if events != [] { HearBroken(events[1..]); }
  }

  lemma {:induction false} ApplyAllFinished(pr: Presentation, p: Sheet, l: Listener, events: seq<Event>)
    requires p.finished <==> l.Ended?
    requires HearAll(l, events) != Broken
    ensures ApplyAll(pr, p, events).finished <==> HearAll(l, events).Ended?
    decreases events
  {
    if events != [] {
      if Hear(l, events[0]) == Broken { HearBroken(events[1..]); }
      ApplyFinished(pr, p, l, events[0]);
      ApplyAllFinished(pr, Apply(pr, p, events[0]), Hear(l, events[0]), events[1..]);
    }
  }

  lemma {:induction false} PresentInChunks(pr: Presentation, p: Sheet, s: State, l: Listener, chunks: seq<Text>)
    requires Consistent(s) && Agree(s, l)
    requires p.finished <==> l.Ended?
    ensures Present(pr, p, s, chunks) == Finish(pr, ApplyAll(pr, p, FeedAll(s, chunks).events))
    decreases chunks
  {
    if chunks != [] {
      var first := Feed(s, chunks[0]);
      var rest := FeedAll(first.state, chunks[1..]);
      FeedKeepsGrammar(s, l, chunks[0]);
      ApplyAllFinished(pr, p, l, first.events);
      ApplyConcat(pr, p, first.events, rest.events);
      PresentInChunks(pr, ApplyAll(pr, p, first.events), first.state, HearAll(l, first.events), chunks[1..]);
    }
  }

  /** Feeding the presenter chunk by chunk and finishing shows what the events of the whole text show. */
  lemma PresentIsOneFeed(pr: Presentation, chunks: seq<Text>)
    ensures Present(pr, BLANK, INITIAL, chunks) == Finish(pr, ApplyAll(pr, BLANK, Feed(INITIAL, Concat(chunks)).events))
  {
    PresentInChunks(pr, BLANK, INITIAL, Between, chunks);
    ChunkingIsIrrelevant(INITIAL, chunks);
  }

  // --- what has been delivered --------------------------------------------

  /** A completed member, and whether its value was streamed as string pieces. */
  datatype Delivered = Delivered(member: Member, streamed: bool)

  datatype Track = Track(listener: Listener, delivered: seq<Delivered>)

  function Note(t: Track, e: Event): Track {
    Track(Hear(t.listener, e),
          if e.ValueComplete? && t.listener.Keyed?
          then t.delivered + [Delivered(Member(e.key, e.value), t.listener.pieces != [])]
          else t.delivered)
  }

  function NoteAll(t: Track, events: seq<Event>): Track
    decreases events
  {
    if events == [] then t else NoteAll(Note(t, events[0]), events[1..])
  }

  const UNHEARD := Track(Between, [])

  lemma {:induction false} NoteHears(t: Track, events: seq<Event>)
    ensures NoteAll(t, events).listener == HearAll(t.listener, events)
    decreases events
  {
    if events != [] { NoteHears(Note(t, events[0]), events[1..]); }
  }

  lemma {:induction false} NoteConcat(t: Track, a: seq<Event>, b: seq<Event>)
    ensures NoteAll(t, a + b) == NoteAll(NoteAll(t, a), b)
    decreases a
  {
    if a == [] {
      assert a + b == b;
    } else {
      assert (a + b)[1..] == a[1..] + b;
      NoteConcat(Note(t, a[0]), a[1..], b);
    }
  }

  function DeliveredMembers(delivered: seq<Delivered>): seq<Member> {
    if delivered == [] then [] else DeliveredMembers(delivered[..|delivered| - 1]) + [delivered[|delivered| - 1].member]
  }

  /** A string value has been begun and not yet completed. */
  predicate InPieces(l: Listener) { l.Keyed? && l.pieces != [] }

  /** The delivered members, a string that was cut short with what arrived of it. */
  function Shown(t: Track): seq<Member> {
    DeliveredMembers(t.delivered) + if InPieces(t.listener) then [Member(t.listener.key, Str(Concat(t.listener.pieces)))] else []
  }

  lemma OutTextPut(p: Sheet, piece: Piece)
    ensures OutText(Put(p, piece).out) == OutText(p.out) + PieceText(piece)
  {
    assert Put(p, piece).out[..|p.out|] == p.out;
  }

  // --- fences -------------------------------------------------------------

  datatype Fence = Shut | Open | Unbalanced

  function FenceStep(f: Fence, piece: Piece): Fence {
    match piece
    case Raw(_) => f
    case FenceOpen(_) | JsonOpen => if f == Shut then Open else Unbalanced
    case FenceClose | JsonClose => if f == Open then Shut else Unbalanced
  }

  /** Every fence is opened when none is open and closed once before the next. */
  function Fences(out: seq<Piece>): Fence {
    if out == [] then Shut else FenceStep(Fences(out[..|out| - 1]), out[|out| - 1])
  }

  lemma FencesPut(p: Sheet, piece: Piece)
    ensures Fences(Put(p, piece).out) == FenceStep(Fences(p.out), piece)
  {
    assert Put(p, piece).out[..|p.out|] == p.out;
  }

  predicate Ignored(configs: ConfigMap, key: Text) { key in configs && configs[key].ignore }

  /** The presenter's flags tell its fences and, in CONFIG_MAP mode, whether a string field is open. */
  predicate FenceInvariant(pr: Presentation, p: Sheet, l: Listener) {
    && (p.out != [] ==> p.headerWritten)
    && (p.headerWritten ==> p.bodyStreamed)
    && (p.stringOpen || p.jsonStringOpen ==> p.headerWritten)
    && if pr.ConfigMapMode? then
         && Fences(p.out) == (if p.fenceOpen then Open else Shut)
         && (p.fenceOpen ==> p.stringOpen)
         && !p.jsonStringOpen
         && (p.stringOpen ==> InPieces(l) && !p.skipKey)
         && (l.Keyed? ==> (p.skipKey <==> Ignored(pr.configs, l.key)))
       else
         && !p.stringOpen
         && Fences(p.out) == (if p.headerWritten && !p.finished then Open else Shut)
         && (p.finished <==> l.Ended?)
  }

  lemma FencesPutRaw(p: Sheet, text: Text)
    ensures Fences(Put(p, Raw(text)).out) == Fences(p.out)
  {
    FencesPut(p, Raw(text));
  }

  lemma PutNameFences(p: Sheet, key: Text, cfg: Config)
    ensures Fences(PutName(p, key, cfg).out) == Fences(p.out)
  {
    FencesPutRaw(p, NameMarkdown(key, cfg));
    FencesPutRaw(Put(p, Raw(NameMarkdown(key, cfg))), OrEmpty(cfg.prefix));
  }

  lemma OpenStringFences(configs: ConfigMap, p: Sheet, key: Text)
    requires Fences(p.out) == Shut && !p.fenceOpen && !p.stringOpen
    ensures var p' := OpenConfigString(configs, p, key);
      Fences(p'.out) == (if p'.fenceOpen then Open else Shut)
  {
    hide Fences, NameMarkdown, ConfigHeader, PlainName, OrEmpty;
    FencesPutRaw(p, ConfigHeader());
    var p1 := EnsureConfigHeader(p);
    if key !in configs {
      FencesPutRaw(p1, PlainName(key));
    } else {
      PutNameFences(p1, key, configs[key]);
      var p2 := PutName(p1, key, configs[key]);
      FencesPutRaw(p2, [NEWLINE]);
      if configs[key].format.Some? { FencesPut(Put(p2, Raw([NEWLINE])), FenceOpen(configs[key].format.value)); }
    }
  }

  lemma ConfigCharsKeepFences(configs: ConfigMap, p: Sheet, l: Listener, key: Text, text: Text)
    requires FenceInvariant(ConfigMapMode(configs), p, l) && l.Keyed? && l.key == key && !p.skipKey
    ensures FenceInvariant(ConfigMapMode(configs), ConfigStringChars(configs, p, key, text), Keyed(key, l.pieces + [text]))
  {
    if key in configs && configs[key].replacedValueInfo.Some? {
    } else if p.stringOpen {
      FencesPutRaw(p, text);
    } else {
      OpenStringFences(configs, p, key);
      FencesPutRaw(OpenConfigString(configs, p, key), text);
    }
  }

  lemma PutSuffixFences(configs: ConfigMap, p: Sheet, key: Text)
    ensures Fences(PutSuffix(configs, p, key).out) == Fences(p.out)
  {
    if key in configs { FencesPutRaw(p, OrEmpty(configs[key].suffix)); }
    FencesPutRaw(if key in configs then Put(p, Raw(OrEmpty(configs[key].suffix))) else p, LineEnd());
  }

  lemma ConfigValueKeepsFences(configs: ConfigMap, p: Sheet, l: Listener, key: Text, value: Json)
    requires FenceInvariant(ConfigMapMode(configs), p, l) && l.Keyed? && l.key == key
    ensures var p' := ConfigValueComplete(configs, p, key, value);
      && Fences(p'.out) == Shut && !p'.fenceOpen && !p'.jsonStringOpen
      && (p'.out != [] ==> p'.headerWritten) && (p'.headerWritten ==> p'.bodyStreamed)
  {
    if Ignored(configs, key) {
    } else if p.stringOpen {
      if p.fenceOpen { FencesPut(p, FenceClose); }
      PutSuffixFences(configs, if p.fenceOpen then Put(p, FenceClose).(fenceOpen := false) else p, key);
    } else {
      FencesPutRaw(p, ConfigHeader());
      var p1 := EnsureConfigHeader(p);
      FencesPutRaw(p1, PlainName(key) + PyStr(value) + LineEnd());
      if key in configs {
        PutNameFences(p1, key, configs[key]);
        var p2 := PutName(p1, key, configs[key]);
        FencesPutRaw(p2, FormatValue(value, configs[key]));
        PutSuffixFences(configs, Put(p2, Raw(FormatValue(value, configs[key]))), key);
      }
    }
  }

  lemma BeginMemberFences(p: Sheet, text: Text)
    requires Fences(p.out) == (if p.headerWritten then Open else Shut)
    ensures Fences(BeginMember(p, text).out) == Open
  {
    hide Fences;
    FencesPut(p, JsonOpen);
    var p1 := EnsureJsonHeader(p);
    FencesPutRaw(p1, [COMMA, NEWLINE]);
    FencesPutRaw(SeparateKeys(p1), text);
  }

  lemma ApplyKeepsFences(pr: Presentation, p: Sheet, l: Listener, e: Event)
    requires FenceInvariant(pr, p, l)
    requires Hear(l, e) != Broken
    ensures FenceInvariant(pr, Apply(pr, p, e), Hear(l, e))
  {
    match e {
      case KeyReady(key) =>
      case StringChars(key, text) =>
        if pr.ConfigMapMode? {
          if !p.skipKey { ConfigCharsKeepFences(pr.configs, p, l, key, text); }
        } else if !p.skipKey {
          BeginMemberFences(p, KeyText(key) + [QUOTE]);
          FencesPutRaw(if p.jsonStringOpen then p else BeginMember(p, KeyText(key) + [QUOTE]).(jsonStringOpen := true), Escape(text));
        }
      case ValueComplete(key, value) =>
        if pr.ConfigMapMode? {
          ConfigValueKeepsFences(pr.configs, p, l, key, value);
        } else if p.jsonStringOpen {
          FencesPutRaw(p, [QUOTE]);
        } else {
          BeginMemberFences(p, KeyText(key) + Reindent(Dumps(value, 0)));
        }
      case ObjectDone =>
        FencesPutRaw(p, ConfigHeader());
        FencesPut(p, JsonClose);
    }
  }

  lemma {:induction false} ApplyAllKeepsFences(pr: Presentation, p: Sheet, l: Listener, events: seq<Event>)
    requires FenceInvariant(pr, p, l)
    requires HearAll(l, events) != Broken
    ensures FenceInvariant(pr, ApplyAll(pr, p, events), HearAll(l, events))
    decreases events
  {
    if events != [] {
      if Hear(l, events[0]) == Broken { HearBroken(events[1..]); }
      ApplyKeepsFences(pr, p, l, events[0]);
      ApplyAllKeepsFences(pr, Apply(pr, p, events[0]), Hear(l, events[0]), events[1..]);
    }
  }

  lemma FinishShutsFences(pr: Presentation, p: Sheet, l: Listener)
    requires FenceInvariant(pr, p, l)
    requires p.finished <==> l.Ended?
    ensures var p' := Finish(pr, p); Fences(p'.out) == Shut && (p'.out != [] ==> p'.bodyStreamed)
  {
    if pr.ConfigMapMode? {
      if p.fenceOpen {
        FencesPut(p, FenceClose);
        FencesPutRaw(Put(p, FenceClose), LineEnd());
      }
    } else {
      FencesPutRaw(p, [QUOTE]);
      FencesPut(if p.jsonStringOpen then Put(p, Raw([QUOTE])).(jsonStringOpen := false) else p, JsonClose);
    }
  }

  /**
   Any input, malformed or cut anywhere, in any chunks, in either mode: after `finish` every fence
   that was opened has been closed exactly once, and whatever was shown is reported as streamed, so
   the static dump is not shown a second time.
   */
  lemma FencesAlwaysBalance(pr: Presentation, chunks: seq<Text>)
    ensures var p := Present(pr, BLANK, INITIAL, chunks);
      Fences(p.out) == Shut && (p.out != [] ==> p.bodyStreamed)
  {
    PresentIsOneFeed(pr, chunks);
    var events := Feed(INITIAL, Concat(chunks)).events;
    FeedKeepsGrammar(INITIAL, Between, Concat(chunks));
    ApplyAllFinished(pr, BLANK, Between, events);
    ApplyAllKeepsFences(pr, BLANK, Between, events);
    FinishShutsFences(pr, ApplyAll(pr, BLANK, events), HearAll(Between, events));
  }

  /** After `finish` nothing is shown any more, neither by further chunks nor by finishing again. */
  lemma {:induction false} FinishIsFinal(pr: Presentation, p: Sheet, s: State, chunks: seq<Text>)
    ensures Present(pr, Finish(pr, p), s, chunks) == Finish(pr, p)
    decreases chunks
  {
    if chunks != [] { FinishIsFinal(pr, p, s, chunks[1..]); }
  }

  // --- when the static dump is left out -----------------------------------

  /** The body counts as streamed once something was shown or the object is complete, and not before. */
  predicate ReportInvariant(p: Sheet, l: Listener) {
    && (p.headerWritten ==> p.out != [])
    && (p.bodyStreamed ==> p.out != [] || l.Ended?)
    && (l.Ended? ==> p.bodyStreamed)
  }

  /** What is shown stays, and the body counts as streamed only with something shown. */
  predicate Reports(p: Sheet, p': Sheet) {
    && (p'.headerWritten ==> p'.out != [])
    && (p.out != [] ==> p'.out != [])
    && (p'.bodyStreamed ==> p.bodyStreamed || p'.out != [])
  }

  lemma ConfigReports(configs: ConfigMap, p: Sheet, key: Text, text: Text, value: Json)
    requires p.headerWritten ==> p.out != []
    ensures Reports(p, EnsureConfigHeader(p))
    ensures Reports(p, ConfigStringChars(configs, p, key, text))
    ensures Reports(p, ConfigValueComplete(configs, p, key, value))
  {
    hide PlainName, ConfigHeader, LineEnd, NameMarkdown, FormatValue, PyStr, OrEmpty, PutName, OpenConfigString, FencedBlock;
    SuffixShows(configs, if p.fenceOpen then Put(p, FenceClose).(fenceOpen := false) else p, key);
    if key in configs {
      SuffixShows(configs, Put(PutName(EnsureConfigHeader(p), key, configs[key]), Raw(FormatValue(value, configs[key]))), key);
    }
    hide PutSuffix;
    assert ConfigStringChars(configs, p, key, text) == p || ConfigStringChars(configs, p, key, text).out != [];
    assert ConfigValueComplete(configs, p, key, value) == p || ConfigValueComplete(configs, p, key, value).out != [];
  }

  lemma SuffixShows(configs: ConfigMap, p: Sheet, key: Text)
    ensures PutSuffix(configs, p, key).out != []
  {
  }

  lemma JsonReports(p: Sheet, key: Text, text: Text, value: Json)
    requires p.headerWritten ==> p.out != []
    ensures Reports(p, JsonStringChars(p, key, text))
    ensures Reports(p, JsonValueComplete(p, key, value))
  {
    hide KeyText, Reindent, Dumps, Escape;
  }

  lemma ApplyKeepsReport(pr: Presentation, p: Sheet, l: Listener, e: Event)
    requires ReportInvariant(p, l) && Hear(l, e) != Broken
    ensures ReportInvariant(Apply(pr, p, e), Hear(l, e))
  {
    match e {
      case StringChars(key, text) =>
        if pr.ConfigMapMode? { ConfigReports(pr.configs, p, key, text, Null); } else { JsonReports(p, key, text, Null); }
      case ValueComplete(key, value) =>
        if pr.ConfigMapMode? { ConfigReports(pr.configs, p, key, [], value); } else { JsonReports(p, key, [], value); }
      case ObjectDone =>
        if pr.ConfigMapMode? { ConfigReports(pr.configs, p, [], [], Null); }
      case _ =>
    }
    hide EnsureConfigHeader, ConfigStringChars, ConfigValueComplete, JsonStringChars, JsonValueComplete, Concat;
  }

  lemma {:induction false} ApplyAllKeepsReport(pr: Presentation, p: Sheet, l: Listener, events: seq<Event>)
    requires ReportInvariant(p, l) && HearAll(l, events) != Broken
    ensures ReportInvariant(ApplyAll(pr, p, events), HearAll(l, events))
    decreases events
  {
    if events != [] {
      if Hear(l, events[0]) == Broken { HearBroken(events[1..]); }
      ApplyKeepsReport(pr, p, l, events[0]);
      ApplyAllKeepsReport(pr, Apply(pr, p, events[0]), Hear(l, events[0]), events[1..]);
    }
  }

  /**
   Any input in any chunks: the body is reported as streamed, and the static dump left out, exactly if
   something was shown or the object came to its end.
   */
  lemma ReportedIffStreamed(pr: Presentation, chunks: seq<Text>)
    ensures var p := Present(pr, BLANK, INITIAL, chunks);
      p.bodyStreamed <==> p.out != [] || ObjectDone in FeedAll(INITIAL, chunks).events
  {
    PresentIsOneFeed(pr, chunks);
    ChunkingIsIrrelevant(INITIAL, chunks);
    var events := Feed(INITIAL, Concat(chunks)).events;
    FeedKeepsGrammar(INITIAL, Between, Concat(chunks));
    ApplyAllKeepsReport(pr, BLANK, Between, events);
    FencesAlwaysBalance(pr, chunks);
    EndedIffDone(Between, events);
    hide ApplyAll, HearAll, Feed, FeedAll;
  }

  lemma {:induction false} EndedIffDone(l: Listener, events: seq<Event>)
    requires HearAll(l, events) != Broken && !l.Ended?
    ensures HearAll(l, events).Ended? <==> ObjectDone in events
    decreases events
  {
    if events != [] {
      if Hear(l, events[0]) == Broken { HearBroken(events[1..]); }
      if events[0].ObjectDone? {
        if events[1..] != [] {
          assert Hear(Ended, events[1]) == Broken;
          HearBroken(events[2..]);
          assert false;
        }
        assert events == [ObjectDone];
      } else {
        EndedIffDone(Hear(l, events[0]), events[1..]);
      }
    }
  }

  // --- JSON_OBJECT: one object of what was delivered ----------------------

  /** The request block up to and including the last complete member. */
  function Body(ms: seq<Member>): Text {
    if ms == [] then [] else JsonHeader() + [LBRACE] + DumpsMembers(ms, 1)
  }

  /** The static request block of `_get_formatted_parameters`: nothing for an empty object. */
  function RequestBlock(ms: seq<Member>): Text {
    var formatted := Dumps(Obj(ms), 0);
    if formatted != [] && formatted != Lit("{}") then Lit("> ##### Request:\n```json\n") + formatted + Lit("\n```\n\n") else []
  }

  /** What precedes the next member. */
  function Lead(ms: seq<Member>): Text {
    if ms == [] then JsonHeader() + [LBRACE, NEWLINE] else Body(ms) + [COMMA, NEWLINE]
  }

  lemma KeyTextIsMember(key: Text, value: Json)
    ensures [NEWLINE] + (KeyText(key) + Dumps(value, 1)) == Break(1) + DumpsMember(Member(key, value), 1)
  {
  }

  lemma BodySnoc(ms: seq<Member>, m: Member)
    ensures Body(ms + [m]) == Lead(ms) + (KeyText(m.key) + Dumps(m.value, 1))
  {
    var last := KeyText(m.key) + Dumps(m.value, 1);
    DumpsMembersSnoc(ms, m, 1);
    KeyTextIsMember(m.key, m.value);
    hide DumpsMembers, DumpsMember, Dumps, KeyText, JsonHeader;
    if ms == [] {
      assert DumpsMembers(ms, 1) == [] by { EmptyMembers(); }
      assert DumpsMembers(ms + [m], 1) == [NEWLINE] + last;
      assert JsonHeader() + [LBRACE] + ([NEWLINE] + last) == JsonHeader() + [LBRACE, NEWLINE] + last;
    } else {
      assert DumpsMembers(ms + [m], 1) == DumpsMembers(ms, 1) + [COMMA] + ([NEWLINE] + last);
      CommaBreak(JsonHeader() + [LBRACE], DumpsMembers(ms, 1), last);
    }
  }

  lemma EmptyMembers()
    ensures DumpsMembers([], 1) == []
  {
  }

  lemma CommaBreak(head: Text, members: Text, last: Text)
    ensures head + (members + [COMMA] + ([NEWLINE] + last)) == head + members + [COMMA, NEWLINE] + last
  {
  }

  lemma BodyClosed(ms: seq<Member>)
    ensures RequestBlock(ms) == if ms == [] then [] else Body(ms) + ([NEWLINE, RBRACE] + JsonFooter())
  {
    if ms != [] {
      var formatted := Dumps(Obj(ms), 0);
      assert formatted == [LBRACE] + DumpsMembers(ms, 1) + Break(0) + [RBRACE];
      assert formatted[|formatted| - 2] == NEWLINE && formatted != Lit("{}");
      assert Break(0) == [NEWLINE];
      CloseBody(JsonHeader(), DumpsMembers(ms, 1), JsonFooter());
    }
  }

  lemma CloseBody(head: Text, members: Text, foot: Text)
    ensures head + ([LBRACE] + members + [NEWLINE] + [RBRACE]) + foot == head + [LBRACE] + members + ([NEWLINE, RBRACE] + foot)
  {
  }

  predicate JsonInvariant(p: Sheet, t: Track) {
    var ms := DeliveredMembers(t.delivered);
    && (p.finished <==> t.listener.Ended?)
    && (p.jsonStringOpen <==> InPieces(t.listener))
    && (p.headerWritten <==> ms != [] || p.jsonStringOpen)
    && (p.jsonFirstKey <==> !p.headerWritten)
    && !p.skipKey
    && OutText(p.out) ==
       if p.finished then RequestBlock(ms)
       else if p.jsonStringOpen then
         Lead(ms) + (KeyText(t.listener.key) + [QUOTE] + Escape(Concat(t.listener.pieces)))
       else Body(ms)
  }

  lemma BeginMemberText(p: Sheet, t: Track, text: Text)
    requires JsonInvariant(p, t) && !p.finished && !p.jsonStringOpen
    ensures OutText(BeginMember(p, text).out) == Lead(DeliveredMembers(t.delivered)) + text
    ensures var p' := BeginMember(p, text); p'.headerWritten && !p'.jsonFirstKey && p'.jsonStringOpen == p.jsonStringOpen
  {
    hide OutText, RequestBlock, JsonHeader, KeyText, Escape, DeliveredMembers, Concat, DumpsMembers;
    var p1 := EnsureJsonHeader(p);
    OutTextPut(p, JsonOpen);
    OutTextPut(p1, Raw([COMMA, NEWLINE]));
    OutTextPut(SeparateKeys(p1), Raw(text));
    assert !p.headerWritten ==> OutText(p.out) == [];
  }

  lemma JsonCharsKeep(p: Sheet, t: Track, key: Text, text: Text)
    requires JsonInvariant(p, t) && t.listener.Keyed? && t.listener.key == key
    ensures JsonInvariant(JsonStringChars(p, key, text), Note(t, StringChars(key, text)))
  {
    hide OutText, RequestBlock, JsonHeader, KeyText, DeliveredMembers, Body, Lead, BeginMember;
    var ms, pieces := DeliveredMembers(t.delivered), t.listener.pieces;
    ConcatSnoc(pieces, text);
    EscapeConcat(Concat(pieces), text);
    var head := KeyText(key) + [QUOTE];
    var p1 := if p.jsonStringOpen then p else BeginMember(p, head).(jsonStringOpen := true);
    OutTextPut(p1, Raw(Escape(text)));
    if !p.jsonStringOpen {
      BeginMemberText(p, t, head);
      assert pieces == [] && head + [] == head;
    }
    assert OutText(p1.out) == Lead(ms) + (head + Escape(Concat(pieces)));
    Append3(Lead(ms), head, Escape(Concat(pieces)), Escape(text));
  }

  lemma Append3(a: Text, b: Text, c: Text, d: Text)
    ensures a + (b + c) + d == a + (b + (c + d))
  {
  }

  lemma EmptyBody()
    ensures Body([]) == []
  {
  }

  lemma CloseString(p: Sheet, ms: seq<Member>, key: Text, value: Text)
    requires OutText(p.out) == Lead(ms) + (KeyText(key) + [QUOTE] + Escape(value))
    ensures OutText(Put(p, Raw([QUOTE])).out) == Body(ms + [Member(key, Str(value))])
  {
    BodySnoc(ms, Member(key, Str(value)));
    OutTextPut(p, Raw([QUOTE]));
    CloseQuote(Lead(ms), KeyText(key), Escape(value));
    hide Body, Lead, KeyText, Escape, OutText;
  }

  lemma CloseQuote(lead: Text, key: Text, escaped: Text)
    ensures lead + (key + [QUOTE] + escaped) + [QUOTE] == lead + (key + ([QUOTE] + escaped + [QUOTE]))
  {
  }

  lemma MembersSnoc(delivered: seq<Delivered>, d: Delivered)
    ensures DeliveredMembers(delivered + [d]) == DeliveredMembers(delivered) + [d.member]
  {
    assert (delivered + [d])[..|delivered|] == delivered;
  }

  lemma JsonValueText(p: Sheet, t: Track, key: Text, value: Json)
    requires JsonInvariant(p, t) && t.listener.Keyed? && t.listener.key == key
    requires p.jsonStringOpen ==> value == Str(Concat(t.listener.pieces))
    ensures var p' := JsonValueComplete(p, key, value);
      && OutText(p'.out) == Body(DeliveredMembers(t.delivered) + [Member(key, value)])
      && p'.headerWritten && !p'.jsonFirstKey && !p'.jsonStringOpen
  {
    var ms := DeliveredMembers(t.delivered);
    hide Body, Lead, KeyText, Dumps, Escape, RequestBlock, OutText, Reindent, DeliveredMembers;
    if p.jsonStringOpen {
      CloseString(p, ms, key, value.text);
    } else {
      BodySnoc(ms, Member(key, value));
      ReindentDumps(value, 0);
      BeginMemberText(p, t, KeyText(key) + Reindent(Dumps(value, 0)));
    }
  }

  lemma JsonValueKeeps(p: Sheet, t: Track, key: Text, value: Json)
    requires JsonInvariant(p, t) && t.listener.Keyed? && t.listener.key == key
    requires Hear(t.listener, ValueComplete(key, value)) != Broken
    ensures JsonInvariant(JsonValueComplete(p, key, value).(skipKey := false, stringOpen := false), Note(t, ValueComplete(key, value)))
  {
    hide JsonValueComplete, Body, Lead, KeyText, RequestBlock, OutText, DeliveredMembers, Escape, Concat;
    JsonValueText(p, t, key, value);
    MembersSnoc(t.delivered, Delivered(Member(key, value), t.listener.pieces != []));
  }

  lemma JsonDoneKeeps(p: Sheet, t: Track)
    requires JsonInvariant(p, t) && t.listener == Between
    ensures JsonInvariant(Apply(JsonObjectMode, p, ObjectDone), Note(t, ObjectDone))
  {
    OutTextPut(p, JsonClose);
    BodyClosed(DeliveredMembers(t.delivered));
  }

  lemma {:induction false} JsonApplyAll(p: Sheet, t: Track, events: seq<Event>)
    requires JsonInvariant(p, t)
    requires HearAll(t.listener, events) != Broken
    ensures JsonInvariant(ApplyAll(JsonObjectMode, p, events), NoteAll(t, events))
    decreases events
  {
    if events != [] {
      var e := events[0];
      if Hear(t.listener, e) == Broken { HearBroken(events[1..]); }
      match e {
        case KeyReady(_) =>
        case StringChars(key, text) => JsonCharsKeep(p, t, key, text);
        case ValueComplete(key, value) => JsonValueKeeps(p, t, key, value);
        case ObjectDone => JsonDoneKeeps(p, t);
      }
      JsonApplyAll(Apply(JsonObjectMode, p, e), Note(t, e), events[1..]);
    }
  }

  lemma JsonFinish(p: Sheet, t: Track)
    requires JsonInvariant(p, t)
    ensures OutText(Finish(JsonObjectMode, p).out) == RequestBlock(Shown(t))
  {
    var ms := DeliveredMembers(t.delivered);
    hide Body, Lead, KeyText, Escape, Dumps, RequestBlock, JsonFooter, OutText;
    if p.finished {
      assert Shown(t) == ms by { assert ms + [] == ms; }
    } else {
      BodyClosed(Shown(t));
      if p.jsonStringOpen {
        CloseString(p, ms, t.listener.key, Concat(t.listener.pieces));
        OutTextPut(Put(p, Raw([QUOTE])).(jsonStringOpen := false), JsonClose);
      } else {
        assert Shown(t) == ms by { assert ms + [] == ms; }
        assert ms == [] ==> OutText(p.out) == [] by { EmptyBody(); }
        OutTextPut(p, JsonClose);
      }
    }
  }

  /**
   JSON_OBJECT mode, any input, malformed or cut anywhere, in any chunks: what is shown is the
   request block of one object holding exactly the delivered members, the last one cut short if a
   string was; nothing if nothing was delivered.
   */
  lemma JsonModeShowsDelivered(chunks: seq<Text>)
    ensures OutText(Present(JsonObjectMode, BLANK, INITIAL, chunks).out) ==
            RequestBlock(Shown(NoteAll(UNHEARD, Feed(INITIAL, Concat(chunks)).events)))
  {
    PresentIsOneFeed(JsonObjectMode, chunks);
    var events := Feed(INITIAL, Concat(chunks)).events;
    FeedKeepsGrammar(INITIAL, Between, Concat(chunks));
    JsonApplyAll(BLANK, UNHEARD, events);
    JsonFinish(ApplyAll(JsonObjectMode, BLANK, events), NoteAll(UNHEARD, events));
  }
}
