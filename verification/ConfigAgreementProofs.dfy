/** The live Markdown rendering of tool parameters: what it shows of any input, and when it is the static rendering. */
module ConfigAgreementProofs {
  import opened PyText
  import opened Sequences
  import opened Wrappers
  import opened Json
  import opened JsonLoads
  import opened JsonSyntax
  import opened JsonDumpsProofs
  import opened ParameterFormat
  import opened ArgumentStreamer
  import opened ArgumentStreamerProofs
  import opened ArgumentPresenter
  import opened ArgumentPresenterProofs
  import opened StaticAgreementProofs

  /** String values of this parameter are shown piece by piece. */
  predicate ShowsPieces(configs: ConfigMap, key: Text) {
    key in configs ==> !configs[key].ignore && configs[key].replacedValueInfo.None?
  }

  function OpenText(configs: ConfigMap, key: Text): Text {
    if key !in configs then PlainName(key)
    else
      var cfg := configs[key];
      NameMarkdown(key, cfg) + OrEmpty(cfg.prefix)
      + if cfg.format.Some? then [NEWLINE] + PieceText(FenceOpen(cfg.format.value)) else []
  }

  function CloseText(configs: ConfigMap, key: Text): Text {
    if key !in configs then LineEnd()
    else
      (if configs[key].format.Some? then PieceText(FenceClose) else []) + OrEmpty(configs[key].suffix) + LineEnd()
  }

  /** What one delivered parameter looks like when streamed. */
  function StreamedParameter(d: Delivered, configs: ConfigMap): Text {
    var key := d.member.key;
    if d.streamed && ShowsPieces(configs, key) then OpenText(configs, key) + PyStr(d.member.value) + CloseText(configs, key)
    else RenderParameter(d.member, configs)
  }

  function StreamedParameters(ds: seq<Delivered>, configs: ConfigMap): Text {
    if ds == [] then []
    else StreamedParameters(ds[..|ds| - 1], configs) + StreamedParameter(ds[|ds| - 1], configs)
  }

  /** What of an unfinished string is shown. */
  function PartialText(configs: ConfigMap, l: Listener): Text {
    if InPieces(l) && ShowsPieces(configs, l.key) then OpenText(configs, l.key) + Concat(l.pieces) else []
  }

  function HeaderIf(written: bool): Text { if written then ConfigHeader() else [] }

  /** Some delivered parameter is not ignored. */
  predicate AnyShown(ds: seq<Delivered>, configs: ConfigMap) {
    ds != [] && (!Ignored(configs, ds[|ds| - 1].member.key) || AnyShown(ds[..|ds| - 1], configs))
  }

  lemma AnyShownSnoc(ds: seq<Delivered>, d: Delivered, configs: ConfigMap)
    ensures AnyShown(ds + [d], configs) <==> AnyShown(ds, configs) || !Ignored(configs, d.member.key)
  {
    assert (ds + [d])[..|ds|] == ds;
  }

  predicate ConfigInvariant(configs: ConfigMap, p: Sheet, t: Track) {
    && (p.finished <==> t.listener.Ended?)
    && (p.headerWritten <==> p.finished || AnyShown(t.delivered, configs) || p.stringOpen)
    && (p.stringOpen <==> InPieces(t.listener) && ShowsPieces(configs, t.listener.key))
    && (p.fenceOpen <==> p.stringOpen && t.listener.key in configs && configs[t.listener.key].format.Some?)
    && (t.listener.Keyed? ==> (p.skipKey <==> Ignored(configs, t.listener.key)))
    && (!p.headerWritten ==> StreamedParameters(t.delivered, configs) == [] && !p.stringOpen)
    && OutText(p.out) == HeaderIf(p.headerWritten) + StreamedParameters(t.delivered, configs) + PartialText(configs, t.listener)
  }

  lemma HeaderText(p: Sheet)
    requires !p.headerWritten ==> OutText(p.out) == []
    ensures var p' := EnsureConfigHeader(p);
      && p'.headerWritten && p'.stringOpen == p.stringOpen && p'.fenceOpen == p.fenceOpen
      && OutText(p'.out) == (if p.headerWritten then [] else ConfigHeader()) + OutText(p.out)
  {
    OutTextPut(p, Raw(ConfigHeader()));
  }

  lemma PutNameText(p: Sheet, key: Text, cfg: Config)
    ensures OutText(PutName(p, key, cfg).out) == OutText(p.out) + (NameMarkdown(key, cfg) + OrEmpty(cfg.prefix))
  {
    hide OutText, NameMarkdown, OrEmpty;
    OutTextPut(p, Raw(NameMarkdown(key, cfg)));
    OutTextPut(Put(p, Raw(NameMarkdown(key, cfg))), Raw(OrEmpty(cfg.prefix)));
  }

  lemma PutSuffixText(configs: ConfigMap, p: Sheet, key: Text)
    ensures OutText(PutSuffix(configs, p, key).out) ==
            OutText(p.out) + ((if key in configs then OrEmpty(configs[key].suffix) else []) + LineEnd())
  {
    hide OutText, OrEmpty, LineEnd;
    if key in configs { OutTextPut(p, Raw(OrEmpty(configs[key].suffix))); }
    OutTextPut(if key in configs then Put(p, Raw(OrEmpty(configs[key].suffix))) else p, Raw(LineEnd()));
  }

  lemma OpenStringText(configs: ConfigMap, p: Sheet, key: Text)
    requires !p.headerWritten ==> OutText(p.out) == []
    requires !p.fenceOpen
    ensures var p' := OpenConfigString(configs, p, key);
      && p'.headerWritten && p'.stringOpen
      && (p'.fenceOpen <==> key in configs && configs[key].format.Some?)
      && OutText(p'.out) == (if p.headerWritten then [] else ConfigHeader()) + OutText(p.out) + OpenText(configs, key)
  {
    hide OutText, NameMarkdown, OrEmpty, ConfigHeader, PlainName, EnsureConfigHeader;
    HeaderText(p);
    var p1 := EnsureConfigHeader(p);
    if key !in configs {
      OutTextPut(p1, Raw(PlainName(key)));
    } else {
      PutNameText(p1, key, configs[key]);
      var p2 := PutName(p1, key, configs[key]);
      if configs[key].format.Some? {
        OutTextPut(p2, Raw([NEWLINE]));
        OutTextPut(Put(p2, Raw([NEWLINE])), FenceOpen(configs[key].format.value));
        hide PieceText;
        Four(OutText(p1.out), NameMarkdown(key, configs[key]) + OrEmpty(configs[key].prefix), [NEWLINE], PieceText(FenceOpen(configs[key].format.value)));
      }
    }
  }

  lemma Four(a: Text, b: Text, c: Text, d: Text)
    ensures a + b + c + d == a + (b + (c + d))
  {
  }

  lemma ConfigCharsText(configs: ConfigMap, p: Sheet, key: Text, text: Text)
    requires ShowsPieces(configs, key)
    requires !p.headerWritten ==> OutText(p.out) == [] && !p.stringOpen
    requires p.fenceOpen <==> p.stringOpen && key in configs && configs[key].format.Some?
    ensures var p' := ConfigStringChars(configs, p, key, text);
      && p'.headerWritten && p'.stringOpen
      && (p'.fenceOpen <==> key in configs && configs[key].format.Some?)
      && OutText(p'.out) ==
         (if p.stringOpen then OutText(p.out)
          else (if p.headerWritten then [] else ConfigHeader()) + OutText(p.out) + OpenText(configs, key)) + text
  {
    hide OutText, ConfigHeader, OpenText, OpenConfigString;
    if p.stringOpen {
      OutTextPut(p, Raw(text));
    } else {
      OpenStringText(configs, p, key);
      OutTextPut(OpenConfigString(configs, p, key), Raw(text));
    }
  }

  /** What the invariant says of the sheet while a key's value is awaited. */
  lemma WhileKeyed(configs: ConfigMap, p: Sheet, t: Track)
    requires ConfigInvariant(configs, p, t) && t.listener.Keyed?
    ensures !p.headerWritten ==> OutText(p.out) == [] && StreamedParameters(t.delivered, configs) == [] && !p.stringOpen
    ensures var key := t.listener.key;
      && (p.fenceOpen <==> p.stringOpen && key in configs && configs[key].format.Some?)
      && (ShowsPieces(configs, key) && !p.stringOpen ==> t.listener.pieces == [])
      && (!ShowsPieces(configs, key) ==> !p.stringOpen)
      && OutText(p.out) == HeaderIf(p.headerWritten) + StreamedParameters(t.delivered, configs)
           + if p.stringOpen then OpenText(configs, key) + Concat(t.listener.pieces) else []
  {
    hide OutText, StreamedParameters, OpenText, Concat, ConfigHeader;
  }

  lemma ConfigCharsOut(configs: ConfigMap, p: Sheet, t: Track, key: Text, text: Text)
    requires ConfigInvariant(configs, p, t) && t.listener.Keyed? && t.listener.key == key && ShowsPieces(configs, key)
    ensures var p' := ConfigStringChars(configs, p, key, text);
      && p'.headerWritten && p'.stringOpen
      && (p'.fenceOpen <==> key in configs && configs[key].format.Some?)
      && OutText(p'.out) ==
         ConfigHeader() + StreamedParameters(t.delivered, configs) + (OpenText(configs, key) + Concat(t.listener.pieces + [text]))
  {
    hide ConfigInvariant, ShowsPieces, OutText, ConfigHeader, OpenText, StreamedParameters, ConfigStringChars, Concat;
    var pieces := t.listener.pieces;
    WhileKeyed(configs, p, t);
    ConcatSnoc(pieces, text);
    ConfigCharsText(configs, p, key, text);
    var done, open := StreamedParameters(t.delivered, configs), OpenText(configs, key);
    if p.stringOpen {
      Four(ConfigHeader() + done, open, Concat(pieces), text);
    } else {
      StartOfString(HeaderIf(p.headerWritten), ConfigHeader(), done, open, text);
      EmptyConcat();
      assert [] + text == text;
    }
  }

  lemma ConfigCharsKeep(configs: ConfigMap, p: Sheet, t: Track, key: Text, text: Text)
    requires ConfigInvariant(configs, p, t) && t.listener.Keyed? && t.listener.key == key
    ensures ConfigInvariant(configs, Apply(ConfigMapMode(configs), p, StringChars(key, text)), Note(t, StringChars(key, text)))
  {
    if ShowsPieces(configs, key) {
      ConfigCharsOut(configs, p, t, key, text);
    }
    hide OutText, ConfigHeader, OpenText, StreamedParameters, OpenConfigString, Concat;
  }

  lemma EmptyConcat()
    ensures Concat([]) == []
  {
  }

  lemma StartOfString(written: Text, header: Text, done: Text, open: Text, text: Text)
    requires written == header || (written == [] && done == [])
    ensures (if written == header then [] else header) + (written + done + []) + open + text == header + done + (open + text)
  {
  }

  lemma StreamedSnoc(ds: seq<Delivered>, d: Delivered, configs: ConfigMap)
    ensures StreamedParameters(ds + [d], configs) == StreamedParameters(ds, configs) + StreamedParameter(d, configs)
  {
    assert (ds + [d])[..|ds|] == ds;
  }

  lemma CloseStringText(configs: ConfigMap, p: Sheet, key: Text)
    requires p.fenceOpen <==> key in configs && configs[key].format.Some?
    ensures OutText(CloseConfigString(configs, p, key).out) == OutText(p.out) + CloseText(configs, key)
  {
    hide OutText, OrEmpty, LineEnd, PutSuffix;
    OutTextPut(p, FenceClose);
    PutSuffixText(configs, if p.fenceOpen then Put(p, FenceClose).(fenceOpen := false) else p, key);
    hide PieceText;
  }

  lemma WholeValueText(configs: ConfigMap, p: Sheet, key: Text, value: Json)
    requires !p.stringOpen && !Ignored(configs, key)
    requires !p.headerWritten ==> OutText(p.out) == []
    ensures var p' := ConfigValueComplete(configs, p, key, value);
      && p'.headerWritten && p'.fenceOpen == p.fenceOpen
      && OutText(p'.out) ==
         (if p.headerWritten then [] else ConfigHeader()) + OutText(p.out) + RenderParameter(Member(key, value), configs)
  {
    hide OutText, NameMarkdown, OrEmpty, ConfigHeader, PlainName, FormatValue, LineEnd, PyStr;
    HeaderText(p);
    var p1 := EnsureConfigHeader(p);
    if key !in configs {
      OutTextPut(p1, Raw(PlainName(key) + PyStr(value) + LineEnd()));
    } else {
      var cfg := configs[key];
      PutNameText(p1, key, cfg);
      var p2 := PutName(p1, key, cfg);
      OutTextPut(p2, Raw(FormatValue(value, cfg)));
      PutSuffixText(configs, Put(p2, Raw(FormatValue(value, cfg))), key);
      FiveParts(OutText(p1.out), NameMarkdown(key, cfg), OrEmpty(cfg.prefix), FormatValue(value, cfg), OrEmpty(cfg.suffix), LineEnd());
    }
  }

  lemma FiveParts(out: Text, name: Text, prefix: Text, value: Text, suffix: Text, end: Text)
    ensures out + (name + prefix) + value + (suffix + end) == out + (name + prefix + value + suffix + end)
  {
  }

  lemma ConfigValueText(configs: ConfigMap, p: Sheet, t: Track, key: Text, value: Json)
    requires ConfigInvariant(configs, p, t) && t.listener.Keyed? && t.listener.key == key && !Ignored(configs, key)
    requires InPieces(t.listener) ==> value == Str(Concat(t.listener.pieces))
    ensures var p' := ConfigValueComplete(configs, p, key, value);
      var d := Delivered(Member(key, value), t.listener.pieces != []);
      && p'.headerWritten && !p'.fenceOpen
      && OutText(p'.out) == ConfigHeader() + (StreamedParameters(t.delivered, configs) + StreamedParameter(d, configs)) + []
  {
    var done := StreamedParameters(t.delivered, configs);
    if p.stringOpen {
      CloseStringText(configs, p, key);
      CloseFlags(configs, p, key);
      hide OutText, ConfigHeader, OpenText, CloseText, StreamedParameters, CloseConfigString, Concat;
      Regrouped(ConfigHeader(), done, OpenText(configs, key), Concat(t.listener.pieces), CloseText(configs, key));
    } else {
      hide OutText, ConfigHeader, OpenText, CloseText, StreamedParameters;
      assert !p.headerWritten ==> OutText(p.out) == [];
      WholeValueText(configs, p, key, value);
      hide ConfigValueComplete, RenderParameter;
      StartOfValue(HeaderIf(p.headerWritten), ConfigHeader(), done, RenderParameter(Member(key, value), configs));
    }
  }

  lemma StartOfValue(written: Text, header: Text, done: Text, last: Text)
    requires written == header || (written == [] && done == [])
    ensures (if written == header then [] else header) + (written + done + []) + last == header + (done + last) + []
  {
  }

  lemma IgnoredValueKeeps(configs: ConfigMap, p: Sheet, t: Track, key: Text, value: Json)
    requires ConfigInvariant(configs, p, t) && t.listener.Keyed? && t.listener.key == key && Ignored(configs, key)
    requires Hear(t.listener, ValueComplete(key, value)) != Broken
    ensures ConfigInvariant(configs, Apply(ConfigMapMode(configs), p, ValueComplete(key, value)), Note(t, ValueComplete(key, value)))
  {
    hide OutText, ConfigHeader, StreamedParameters, StreamedParameter, ConfigValueComplete, ShowsPieces, OpenText, Concat, AnyShown;
    var d := Delivered(Member(key, value), t.listener.pieces != []);
    IgnoredShowsNothing(configs, p, key, value, d.streamed);
    WhileKeyed(configs, p, t);
    StreamedSnoc(t.delivered, d, configs);
    AnyShownSnoc(t.delivered, d, configs);
    RightEmpty(StreamedParameters(t.delivered, configs));
  }

  lemma IgnoredShowsNothing(configs: ConfigMap, p: Sheet, key: Text, value: Json, streamed: bool)
    requires Ignored(configs, key)
    ensures StreamedParameter(Delivered(Member(key, value), streamed), configs) == []
    ensures ConfigValueComplete(configs, p, key, value) == p && !ShowsPieces(configs, key)
  {
  }

  lemma ConfigValueKeeps(configs: ConfigMap, p: Sheet, t: Track, key: Text, value: Json)
    requires ConfigInvariant(configs, p, t) && t.listener.Keyed? && t.listener.key == key
    requires Hear(t.listener, ValueComplete(key, value)) != Broken
    ensures ConfigInvariant(configs, Apply(ConfigMapMode(configs), p, ValueComplete(key, value)), Note(t, ValueComplete(key, value)))
  {
    hide OutText, ConfigHeader, StreamedParameters, StreamedParameter, ConfigValueComplete, Ignored, Concat, AnyShown;
    if Ignored(configs, key) {
      IgnoredValueKeeps(configs, p, t, key, value);
    } else {
      StreamedSnoc(t.delivered, Delivered(Member(key, value), t.listener.pieces != []), configs);
      AnyShownSnoc(t.delivered, Delivered(Member(key, value), t.listener.pieces != []), configs);
      ConfigValueText(configs, p, t, key, value);
    }
  }

  lemma CloseFlags(configs: ConfigMap, p: Sheet, key: Text)
    ensures var p' := CloseConfigString(configs, p, key); p'.headerWritten == p.headerWritten && !p'.fenceOpen && !p'.stringOpen
  {
  }

  lemma Regrouped(head: Text, done: Text, open: Text, text: Text, close: Text)
    ensures head + done + (open + text) + close == head + (done + (open + text + close)) + []
  {
  }

  lemma ConfigDoneKeeps(configs: ConfigMap, p: Sheet, t: Track)
    requires ConfigInvariant(configs, p, t) && t.listener == Between
    ensures ConfigInvariant(configs, Apply(ConfigMapMode(configs), p, ObjectDone), Note(t, ObjectDone))
  {
    hide OutText, ConfigHeader, StreamedParameters;
    HeaderText(p);
    assert HeaderIf(true) + [] == HeaderIf(true);
    assert [] + OutText(p.out) == OutText(p.out);
  }

  lemma {:induction false} ConfigApplyAll(configs: ConfigMap, p: Sheet, t: Track, events: seq<Event>)
    requires ConfigInvariant(configs, p, t)
    requires HearAll(t.listener, events) != Broken
    ensures ConfigInvariant(configs, ApplyAll(ConfigMapMode(configs), p, events), NoteAll(t, events))
    decreases events
  {
    if events != [] {
      var e := events[0];
      if Hear(t.listener, e) == Broken { HearBroken(events[1..]); }
      match e {
        case KeyReady(_) =>
        case StringChars(key, text) => ConfigCharsKeep(configs, p, t, key, text);
        case ValueComplete(key, value) => ConfigValueKeeps(configs, p, t, key, value);
        case ObjectDone => ConfigDoneKeeps(configs, p, t);
      }
      ConfigApplyAll(configs, Apply(ConfigMapMode(configs), p, e), Note(t, e), events[1..]);
    }
  }

  /** What `finish` adds to a string that was cut: the end of its fence, if it is shown in one. */
  function CutText(configs: ConfigMap, l: Listener): Text {
    if InPieces(l) && ShowsPieces(configs, l.key) && l.key in configs && configs[l.key].format.Some? then
      PieceText(FenceClose) + LineEnd()
    else []
  }

  lemma ConfigFinish(configs: ConfigMap, p: Sheet, t: Track)
    requires ConfigInvariant(configs, p, t)
    ensures OutText(Finish(ConfigMapMode(configs), p).out) == OutText(p.out) + CutText(configs, t.listener)
  {
    hide OutText, StreamedParameters, PartialText, AnyShown, HeaderIf;
    if p.fenceOpen {
      OutTextPut(p, FenceClose);
      OutTextPut(Put(p, FenceClose), Raw(LineEnd()));
    }
  }

  /** Something is shown: a delivered parameter, a string that was begun, or the header of an ended object. */
  predicate ShowsHeader(t: Track, configs: ConfigMap) {
    || t.listener.Ended? || AnyShown(t.delivered, configs)
    || (InPieces(t.listener) && ShowsPieces(configs, t.listener.key))
  }

  /**
   CONFIG_MAP mode, any input, malformed or cut anywhere, in any chunks: the header if there is anything to
   show, the delivered parameters in arrival order, and what came of a string that was cut, its fence closed.
   */
  lemma ConfigModeShowsDelivered(configs: ConfigMap, chunks: seq<Text>)
    ensures var t := NoteAll(UNHEARD, Feed(INITIAL, Concat(chunks)).events);
      OutText(Present(ConfigMapMode(configs), BLANK, INITIAL, chunks).out) ==
      HeaderIf(ShowsHeader(t, configs)) + StreamedParameters(t.delivered, configs)
      + PartialText(configs, t.listener) + CutText(configs, t.listener)
  {
    var events := Feed(INITIAL, Concat(chunks)).events;
    PresentIsOneFeed(ConfigMapMode(configs), chunks);
    FeedKeepsGrammar(INITIAL, Between, Concat(chunks));
    NoteHears(UNHEARD, events);
    ConfigApplyAll(configs, BLANK, UNHEARD, events);
    hide StreamedParameters, PartialText, OutText, Feed, HeaderIf, CutText, AnyShown, ApplyAll, NoteAll;
    ConfigFinish(configs, ApplyAll(ConfigMapMode(configs), BLANK, events), NoteAll(UNHEARD, events));
  }

  /** A non-empty string shown piece by piece into a code fence. */
  predicate FencedString(d: Delivered, configs: ConfigMap) {
    var key := d.member.key;
    d.streamed && ShowsPieces(configs, key) && key in configs && configs[key].format.Some?
  }

  /** The fixed streaming fence never renders like the static one; every other parameter renders alike. */
  lemma StreamedParameterIsStatic(d: Delivered, configs: ConfigMap)
    ensures StreamedParameter(d, configs) == RenderParameter(d.member, configs) <==> !FencedString(d, configs)
  {
    hide NameMarkdown, PlainName, LineEnd, PyStr, LongestRun;
    var key, value := d.member.key, d.member.value;
    if d.streamed && ShowsPieces(configs, key) && key in configs {
      var cfg := configs[key];
      if cfg.format.Some? {
        var longest := LongestRun(PyStr(value), 0);
        var fence := if longest + 1 > 3 then longest + 1 else 3;
        var language := cfg.format.value;
        assert |FormatValue(value, cfg)| == 2 * fence + |language| + 2 + |PyStr(value)| + 2;
        assert |StreamedParameter(d, configs)| != |RenderParameter(d.member, configs)|;
      } else {
        assert NameMarkdown(key, cfg) + OrEmpty(cfg.prefix) + [] == NameMarkdown(key, cfg) + OrEmpty(cfg.prefix);
        assert [] + OrEmpty(cfg.suffix) == OrEmpty(cfg.suffix);
        Grouped4(NameMarkdown(key, cfg) + OrEmpty(cfg.prefix), PyStr(value), OrEmpty(cfg.suffix), LineEnd());
      }
    }
  }

  lemma Grouped4(a: Text, b: Text, c: Text, d: Text)
    ensures a + b + (c + d) == a + b + c + d
  {
  }

  // --- a legal object against the static dump -----------------------------

  lemma {:induction false} RenderSnoc(params: seq<Member>, m: Member, configs: ConfigMap)
    ensures RenderInOrder(params + [m], configs) == RenderInOrder(params, configs) + RenderParameter(m, configs)
    decreases params
  {
    hide RenderParameter;
    if params == [] {
      assert [m][1..] == [];
    } else {
      assert (params + [m])[1..] == params[1..] + [m];
      RenderSnoc(params[1..], m, configs);
    }
  }

  // --- why a fenced string always shows -----------------------------------

  /** Two fences of different lengths before the same language make the texts differ, whatever follows. */
  lemma {:induction false} BackticksFill(n: nat, m: nat, language: Text, a: Text, b: Text, i: nat)
    requires n < m && i <= |language|
    requires Backticks(n) + language + [NEWLINE] + a == Backticks(m) + language + [NEWLINE] + b
    ensures forall j :: 0 <= j < i ==> language[j] == BACKTICK
    ensures (Backticks(m) + language + [NEWLINE] + b)[n + i] == BACKTICK
    decreases i
  {
    if i > 0 {
      BackticksFill(n, m, language, a, b, i - 1);
      assert (Backticks(n) + language + [NEWLINE] + a)[n + i - 1] == language[i - 1];
    }
  }

  lemma FencesDiffer(n: nat, m: nat, language: Text, a: Text, b: Text)
    requires n < m
    ensures Backticks(n) + language + [NEWLINE] + a != Backticks(m) + language + [NEWLINE] + b
  {
    if Backticks(n) + language + [NEWLINE] + a == Backticks(m) + language + [NEWLINE] + b {
      BackticksFill(n, m, language, a, b, |language|);
    }
  }

  /** The newline behind the static fence shows, whatever the suffix and whatever follows. */
  lemma {:induction false} NewlineShows(suffix: Text, a: Text, b: Text)
    ensures suffix + LineEnd() + a != [NEWLINE] + suffix + LineEnd() + b
    decreases suffix
  {
    var left, right := suffix + LineEnd() + a, [NEWLINE] + suffix + LineEnd() + b;
    if suffix == [] {
      assert left[1] == 0x0D && right[1] == NEWLINE;
    } else if suffix[0] == NEWLINE {
      NewlineShows(suffix[1..], a, b);
      assert left[1..] == suffix[1..] + LineEnd() + a;
      assert right[1..] == [NEWLINE] + suffix[1..] + LineEnd() + b;
    } else {
      assert left[0] != right[0];
    }
  }

  lemma SameStart(head: Text, a: Text, b: Text)
    requires a != b
    ensures head + a != head + b
  {
    assert (head + a)[|head|..] == a && (head + b)[|head|..] == b;
  }

  /** The fixed streaming fence and the computed static one, each with the text and the suffix behind it. */
  lemma FencedTextsDiffer(fence: nat, language: Text, value: Text, suffix: Text, a: Text, b: Text)
    ensures Backticks(4) + language + [NEWLINE] + (value + ([NEWLINE] + Backticks(4) + (suffix + LineEnd() + a)))
         != Backticks(fence) + language + [NEWLINE] + (value + ([NEWLINE] + Backticks(fence) + ([NEWLINE] + suffix + LineEnd() + b)))
  {
    hide Backticks, LineEnd;
    var left, right := value + ([NEWLINE] + Backticks(4) + (suffix + LineEnd() + a)),
                       value + ([NEWLINE] + Backticks(fence) + ([NEWLINE] + suffix + LineEnd() + b));
    if fence < 4 {
      FencesDiffer(fence, 4, language, right, left);
    } else if fence > 4 {
      FencesDiffer(4, fence, language, left, right);
    } else {
      NewlineShows(suffix, a, b);
      SameStart([NEWLINE] + Backticks(4), suffix + LineEnd() + a, [NEWLINE] + suffix + LineEnd() + b);
      SameStart(value, [NEWLINE] + Backticks(4) + (suffix + LineEnd() + a),
                [NEWLINE] + Backticks(4) + ([NEWLINE] + suffix + LineEnd() + b));
      SameStart(Backticks(4) + language + [NEWLINE], left, right);
    }
  }

  function StaticFence(value: Text): nat {
    var longest := LongestRun(value, 0);
    if longest + 1 > 3 then longest + 1 else 3
  }

  lemma StreamedShape(name: Text, prefix: Text, fence: Text, language: Text, value: Text, suffix: Text, end: Text, a: Text)
    ensures name + prefix + ([NEWLINE] + (fence + language + [NEWLINE])) + value + ([NEWLINE] + fence + suffix + end) + a
         == (name + prefix + [NEWLINE]) + (fence + language + [NEWLINE] + (value + ([NEWLINE] + fence + (suffix + end + a))))
  {
  }

  lemma RenderedShape(name: Text, prefix: Text, fence: Text, language: Text, value: Text, suffix: Text, end: Text, b: Text)
    ensures name + prefix + ([NEWLINE] + (fence + language + [NEWLINE] + value + [NEWLINE] + fence) + [NEWLINE]) + suffix + end + b
         == (name + prefix + [NEWLINE])
          + (fence + language + [NEWLINE] + (value + ([NEWLINE] + fence + ([NEWLINE] + suffix + end + b))))
  {
  }

  /** A fenced string makes the two renderings differ there, whatever follows. */
  lemma FencedStringShows(d: Delivered, configs: ConfigMap, a: Text, b: Text)
    requires FencedString(d, configs)
    ensures StreamedParameter(d, configs) + a != RenderParameter(d.member, configs) + b
  {
    hide NameMarkdown, LineEnd, PyStr, LongestRun, Backticks;
    var cfg := configs[d.member.key];
    var name, prefix, suffix := NameMarkdown(d.member.key, cfg), OrEmpty(cfg.prefix), OrEmpty(cfg.suffix);
    var value, language := PyStr(d.member.value), cfg.format.value;
    var fence := StaticFence(value);
    FencedTextsDiffer(fence, language, value, suffix, a, b);
    FourBackticks();
    StreamedShape(name, prefix, Backticks(4), language, value, suffix, LineEnd(), a);
    RenderedShape(name, prefix, Backticks(fence), language, value, suffix, LineEnd(), b);
    SameStart(name + prefix + [NEWLINE],
              Backticks(4) + language + [NEWLINE] + (value + ([NEWLINE] + Backticks(4) + (suffix + LineEnd() + a))),
              Backticks(fence) + language + [NEWLINE]
              + (value + ([NEWLINE] + Backticks(fence) + ([NEWLINE] + suffix + LineEnd() + b))));
  }

  lemma FourBackticks()
    ensures Lit("````") == Backticks(4)
  {
  }

  lemma Cancelled(head: Text, a: Text, b: Text)
    requires head + a == head + b
    ensures a == b
  {
    assert (head + a)[|head|..] == a && (head + b)[|head|..] == b;
  }

  // --- why a surrogate pair shows -----------------------------------------

  /** The value of this parameter is not shown: it is ignored or replaced. */
  predicate Hidden(configs: ConfigMap, key: Text) {
    key in configs && (configs[key].ignore || OrEmpty(configs[key].replacedValueInfo) != [])
  }

  /** The string value as streamed and as loaded, a pair apart and joined. */
  predicate LoadedFrom(d: Delivered, l: Member, items: seq<StringItem>) {
    d.streamed && d.member.value == Str(Units(items)) && l.value == Str(StringValue(items))
  }

  /** `l` is the loaded member of the delivered one. */
  ghost predicate LoadedAs(d: Delivered, l: Member) {
    d.member.key == l.key && (d.member.value == l.value || exists items :: LoadedFrom(d, l, items))
  }

  /** A pair apart and a pair joined differ whatever follows. */
  lemma {:induction false} PairShows(items: seq<StringItem>, a: Text, b: Text)
    requires Units(items) != StringValue(items)
    ensures Units(items) + a != StringValue(items) + b
    decreases items
  {
    if PairAt(items, 0) {
      assert (Units(items) + a)[0] < 0x1_0000 <= (StringValue(items) + b)[0];
    } else {
      var rest := items[1..];
      assert Units(items) == [Unit(items[0])] + Units(rest) && StringValue(items) == [Unit(items[0])] + StringValue(rest);
      PairShows(rest, a, b);
      SameStart([Unit(items[0])], Units(rest) + a, StringValue(rest) + b);
      Associative([Unit(items[0])], Units(rest), a);
      Associative([Unit(items[0])], StringValue(rest), b);
    }
  }

  lemma FencedPairShows(n: nat, m: nat, language: Text, items: seq<StringItem>, a: Text, b: Text)
    requires Units(items) != StringValue(items)
    ensures Backticks(n) + language + [NEWLINE] + (Units(items) + a) != Backticks(m) + language + [NEWLINE] + (StringValue(items) + b)
  {
    hide Backticks, Units, StringValue;
    if n < m {
      FencesDiffer(n, m, language, Units(items) + a, StringValue(items) + b);
    } else if n > m {
      FencesDiffer(m, n, language, StringValue(items) + b, Units(items) + a);
    } else {
      PairShows(items, a, b);
      SameStart(Backticks(n) + language + [NEWLINE], Units(items) + a, StringValue(items) + b);
    }
  }

  lemma PlainShape(name: Text, prefix: Text, value: Text, suffix: Text, end: Text, a: Text)
    ensures name + prefix + value + suffix + end + a == (name + prefix) + (value + (suffix + end + a))
    ensures name + value + end + a == name + (value + (end + a))
    ensures name + prefix + value + ([] + suffix + end) + a == (name + prefix) + (value + (suffix + end + a))
    ensures name + prefix + [] + value + ([] + suffix + end) + a == (name + prefix) + (value + (suffix + end + a))
  {
    assert [] + suffix + end == suffix + end && name + prefix + [] == name + prefix;
  }

  /** A shown pair in a value makes the two renderings differ there, whatever follows. */
  lemma PairInValueShows(d: Delivered, l: Member, items: seq<StringItem>, configs: ConfigMap, a: Text, b: Text)
    requires d.member.key == l.key && LoadedFrom(d, l, items)
    requires Units(items) != StringValue(items) && !Hidden(configs, l.key)
    ensures StreamedParameter(d, configs) + a != RenderParameter(l, configs) + b
  {
    hide NameMarkdown, PlainName, LineEnd, LongestRun, Backticks, Units, StringValue;
    var u, v, key := Units(items), StringValue(items), l.key;
    if key !in configs {
      PairShows(items, LineEnd() + a, LineEnd() + b);
      SameStart(PlainName(key), u + (LineEnd() + a), v + (LineEnd() + b));
      PlainShape(PlainName(key), [], u, [], LineEnd(), a);
      PlainShape(PlainName(key), [], v, [], LineEnd(), b);
    } else {
      var cfg := configs[key];
      var name, prefix, suffix := NameMarkdown(key, cfg), OrEmpty(cfg.prefix), OrEmpty(cfg.suffix);
      if cfg.format.None? {
        PairShows(items, suffix + LineEnd() + a, suffix + LineEnd() + b);
        SameStart(name + prefix, u + (suffix + LineEnd() + a), v + (suffix + LineEnd() + b));
        PlainShape(name, prefix, u, suffix, LineEnd(), a);
        PlainShape(name, prefix, v, suffix, LineEnd(), b);
      } else {
        FencedPairInValueShows(d, l, items, configs, a, b);
      }
    }
  }

  lemma FencedPairInValueShows(d: Delivered, l: Member, items: seq<StringItem>, configs: ConfigMap, a: Text, b: Text)
    requires d.member.key == l.key && LoadedFrom(d, l, items)
    requires Units(items) != StringValue(items) && !Hidden(configs, l.key) && l.key in configs && configs[l.key].format.Some?
    ensures StreamedParameter(d, configs) + a != RenderParameter(l, configs) + b
  {
    hide NameMarkdown, PlainName, LineEnd, LongestRun, Backticks, Units, StringValue;
    var u, v, cfg := Units(items), StringValue(items), configs[l.key];
    var name, prefix, suffix := NameMarkdown(l.key, cfg), OrEmpty(cfg.prefix), OrEmpty(cfg.suffix);
    var language, m, n := cfg.format.value, StaticFence(v), if ShowsPieces(configs, l.key) then 4 else StaticFence(u);
    FourBackticks();
    var more := if ShowsPieces(configs, l.key) then [NEWLINE] + Backticks(n) + (suffix + LineEnd() + a)
                else [NEWLINE] + Backticks(n) + ([NEWLINE] + suffix + LineEnd() + a);
    var less := [NEWLINE] + Backticks(m) + ([NEWLINE] + suffix + LineEnd() + b);
    FencedPairShows(n, m, language, items, more, less);
    SameStart(name + prefix + [NEWLINE], Backticks(n) + language + [NEWLINE] + (u + more),
              Backticks(m) + language + [NEWLINE] + (v + less));
    RenderedShape(name, prefix, Backticks(m), language, v, suffix, LineEnd(), b);
    if ShowsPieces(configs, l.key) {
      StreamedShape(name, prefix, Backticks(4), language, u, suffix, LineEnd(), a);
    } else {
      RenderedShape(name, prefix, Backticks(n), language, u, suffix, LineEnd(), a);
    }
  }

  // --- a whole object -----------------------------------------------------

  /** This parameter streams as its loaded member renders. */
  predicate StreamsAlike(d: Delivered, l: Member, configs: ConfigMap) {
    !FencedString(d, configs) && (d.member.value == l.value || Hidden(configs, l.key))
  }

  lemma AlikeRenders(d: Delivered, l: Member, configs: ConfigMap)
    requires LoadedAs(d, l) && StreamsAlike(d, l, configs)
    ensures StreamedParameter(d, configs) == RenderParameter(l, configs)
  {
    StreamedParameterIsStatic(d, configs);
  }

  lemma DifferenceShows(d: Delivered, l: Member, configs: ConfigMap, a: Text, b: Text)
    requires LoadedAs(d, l) && !StreamsAlike(d, l, configs)
    ensures StreamedParameter(d, configs) + a != RenderParameter(l, configs) + b
  {
    hide StreamedParameter, RenderParameter;
    if d.member.value == l.value {
      FencedStringShows(d, configs, a, b);
      assert d.member == l;
    } else {
      var items :| LoadedFrom(d, l, items);
      PairInValueShows(d, l, items, configs, a, b);
    }
  }

  ghost predicate AllLoadedAs(ds: seq<Delivered>, ls: seq<Member>) {
    |ds| == |ls| && forall i :: 0 <= i < |ds| ==> LoadedAs(ds[i], ls[i])
  }

  predicate AllAlike(ds: seq<Delivered>, ls: seq<Member>, configs: ConfigMap) {
    |ds| == |ls| && forall i :: 0 <= i < |ds| ==> StreamsAlike(ds[i], ls[i], configs)
  }

  lemma {:induction false} AllAlikeRender(ds: seq<Delivered>, ls: seq<Member>, configs: ConfigMap)
    requires AllLoadedAs(ds, ls) && AllAlike(ds, ls, configs)
    ensures StreamedParameters(ds, configs) == RenderInOrder(ls, configs)
    decreases ds
  {
    if ds != [] {
      var n := |ds| - 1;
      AllAlikeRender(ds[..n], ls[..n], configs);
      AlikeRenders(ds[n], ls[n], configs);
      hide StreamedParameter, RenderParameter, StreamsAlike, LoadedAs;
      RenderSnoc(ls[..n], ls[n], configs);
      assert ls == ls[..n] + [ls[n]];
    }
  }

  /** Equal renderings, even with more behind them, have no difference anywhere: none could be made up for later. */
  lemma {:induction false} EqualRenderingsAreAlike(ds: seq<Delivered>, ls: seq<Member>, configs: ConfigMap, a: Text, b: Text)
    requires AllLoadedAs(ds, ls) && StreamedParameters(ds, configs) + a == RenderInOrder(ls, configs) + b
    ensures AllAlike(ds, ls, configs)
    decreases ds
  {
    hide RenderInOrder, RenderParameter, StreamedParameters, StreamedParameter, StreamsAlike, LoadedAs, AllLoadedAs, AllAlike;
    LoadedParts(ds, ls, configs);
    if ds != [] {
      var n := |ds| - 1;
      var head, more, less := RenderInOrder(ls[..n], configs), StreamedParameter(ds[n], configs), RenderParameter(ls[n], configs);
      Associative(StreamedParameters(ds[..n], configs), more, a);
      Associative(head, less, b);
      EqualRenderingsAreAlike(ds[..n], ls[..n], configs, more + a, less + b);
      AllAlikeRender(ds[..n], ls[..n], configs);
      Cancelled(head, more + a, less + b);
      if !StreamsAlike(ds[n], ls[n], configs) { DifferenceShows(ds[n], ls[n], configs, a, b); }
      AllAlikeSnoc(ds, ls, configs);
    }
  }

  lemma LoadedParts(ds: seq<Delivered>, ls: seq<Member>, configs: ConfigMap)
    requires AllLoadedAs(ds, ls)
    ensures |ds| == |ls| && (ds == [] ==> AllAlike(ds, ls, configs))
    ensures ds != [] ==>
      var n := |ds| - 1;
      && AllLoadedAs(ds[..n], ls[..n]) && LoadedAs(ds[n], ls[n])
      && StreamedParameters(ds, configs) == StreamedParameters(ds[..n], configs) + StreamedParameter(ds[n], configs)
      && RenderInOrder(ls, configs) == RenderInOrder(ls[..n], configs) + RenderParameter(ls[n], configs)
  {
    hide LoadedAs, StreamedParameter, RenderParameter, StreamsAlike;
    if ds != [] {
      var n := |ds| - 1;
      assert ls == ls[..n] + [ls[n]];
      RenderSnoc(ls[..n], ls[n], configs);
    }
  }

  lemma AllAlikeSnoc(ds: seq<Delivered>, ls: seq<Member>, configs: ConfigMap)
    requires |ds| == |ls| > 0 && AllAlike(ds[..|ds| - 1], ls[..|ds| - 1], configs)
    requires StreamsAlike(ds[|ds| - 1], ls[|ds| - 1], configs)
    ensures AllAlike(ds, ls, configs)
  {
    hide StreamsAlike;
    var n := |ds| - 1;
    forall i | 0 <= i < |ds| ensures StreamsAlike(ds[i], ls[i], configs) {
      if i < n { assert ds[..n][i] == ds[i] && ls[..n][i] == ls[i]; }
    }
  }

  // --- repeated keys ------------------------------------------------------

  const RETURN: CodePoint := 0x0D

  /** The carriage returns in a text: every parameter that is shown ends with one, and no fence has any. */
  function Returns(t: Text): nat {
    if t == [] then 0 else (if t[0] == RETURN then 1 else 0) + Returns(t[1..])
  }

  lemma {:induction false} ReturnsConcat(a: Text, b: Text)
    ensures Returns(a + b) == Returns(a) + Returns(b)
    decreases a
  {
    if a == [] {
      assert a + b == b;
    } else {
      assert (a + b)[1..] == a[1..] + b;
      ReturnsConcat(a[1..], b);
    }
  }

  lemma {:induction false} NoReturns(t: Text)
    requires forall i :: 0 <= i < |t| ==> t[i] != RETURN
    ensures Returns(t) == 0
    decreases t
  {
    if t != [] { NoReturns(t[1..]); }
  }

  lemma {:induction false} PairReturns(items: seq<StringItem>)
    ensures Returns(Units(items)) == Returns(StringValue(items))
    decreases |items|
  {
    if items != [] {
      if PairAt(items, 0) {
        TwoUnits(items);
        var hi, lo, rest := Unit(items[0]), Unit(items[1]), Units(items[2..]);
        assert ([hi] + ([lo] + rest))[1..] == [lo] + rest && ([lo] + rest)[1..] == rest;
        PairReturns(items[2..]);
        assert StringValue(items)[1..] == StringValue(items[2..]);
      } else {
        PairReturns(items[1..]);
        assert Units(items)[1..] == Units(items[1..]) && StringValue(items)[1..] == StringValue(items[1..]);
      }
    }
  }

  lemma ReturnsOfFive(a: Text, b: Text, c: Text, d: Text, e: Text)
    ensures Returns(a + b + c + d + e) == Returns(a) + Returns(b) + Returns(c) + Returns(d) + Returns(e)
  {
    ReturnsConcat(a + b + c + d, e);
    ReturnsConcat(a + b + c, d);
    ReturnsConcat(a + b, c);
    ReturnsConcat(a, b);
  }

  lemma FenceReturns(n: nat)
    ensures Returns(Backticks(n)) == 0 && Returns([NEWLINE]) == 0 && Returns([]) == 0 && Returns(LineEnd()) == 1
  {
    NoReturns(Backticks(n));
    assert LineEnd()[1..] == [RETURN] && [RETURN][1..] == [];
  }

  lemma FormatReturns(value: Json, cfg: Config)
    requires OrEmpty(cfg.replacedValueInfo) == []
    ensures Returns(FormatValue(value, cfg)) == Returns(PyStr(value)) + if cfg.format.Some? then Returns(cfg.format.value) else 0
  {
    hide Backticks, LongestRun, Returns;
    if cfg.format.Some? {
      var shown, language := PyStr(value), cfg.format.value;
      var fence := StaticFence(shown);
      FenceReturns(fence);
      ReturnsConcat(Backticks(fence) + language + [NEWLINE] + shown + [NEWLINE], Backticks(fence));
      ReturnsOfFive(Backticks(fence), language, [NEWLINE], shown, [NEWLINE]);
      ReturnsConcat([NEWLINE], FencedBlock(shown, language));
      ReturnsConcat([NEWLINE] + FencedBlock(shown, language), [NEWLINE]);
    }
  }

  /** However a shown parameter is rendered, its carriage returns are those of its parts and one. */
  lemma RenderReturns(m: Member, configs: ConfigMap)
    requires !Hidden(configs, m.key)
    ensures Returns(RenderParameter(m, configs)) ==
      if m.key !in configs then Returns(PlainName(m.key)) + Returns(PyStr(m.value)) + 1
      else
        var cfg := configs[m.key];
        Returns(NameMarkdown(m.key, cfg)) + Returns(OrEmpty(cfg.prefix)) + Returns(PyStr(m.value))
        + (if cfg.format.Some? then Returns(cfg.format.value) else 0) + Returns(OrEmpty(cfg.suffix)) + 1
  {
    hide NameMarkdown, PlainName, LineEnd, FormatValue, PyStr, OrEmpty, Returns;
    FenceReturns(0);
    if m.key !in configs {
      ReturnsConcat(PlainName(m.key) + PyStr(m.value), LineEnd());
      ReturnsConcat(PlainName(m.key), PyStr(m.value));
    } else {
      var cfg := configs[m.key];
      FormatReturns(m.value, cfg);
      ReturnsOfFive(NameMarkdown(m.key, cfg), OrEmpty(cfg.prefix), FormatValue(m.value, cfg), OrEmpty(cfg.suffix), LineEnd());
    }
  }

  lemma ShownIsNotHidden(configs: ConfigMap, key: Text)
    requires ShowsPieces(configs, key)
    ensures !Hidden(configs, key)
  {
  }

  lemma StreamedReturns(d: Delivered, configs: ConfigMap)
    requires d.streamed && ShowsPieces(configs, d.member.key)
    ensures Returns(StreamedParameter(d, configs)) == Returns(RenderParameter(d.member, configs))
  {
    hide NameMarkdown, PlainName, LineEnd, PyStr, OrEmpty, Returns, Backticks;
    ShownIsNotHidden(configs, d.member.key);
    RenderReturns(d.member, configs);
    FenceReturns(4);
    var key, value := d.member.key, PyStr(d.member.value);
    ReturnsConcat(OpenText(configs, key) + value, CloseText(configs, key));
    ReturnsConcat(OpenText(configs, key), value);
    if key in configs {
      var cfg := configs[key];
      var opening := if cfg.format.Some? then [NEWLINE] + PieceText(FenceOpen(cfg.format.value)) else [];
      var closing := if cfg.format.Some? then PieceText(FenceClose) else [];
      ReturnsConcat(NameMarkdown(key, cfg) + OrEmpty(cfg.prefix), opening);
      ReturnsConcat(NameMarkdown(key, cfg), OrEmpty(cfg.prefix));
      ReturnsConcat(closing + OrEmpty(cfg.suffix), LineEnd());
      ReturnsConcat(closing, OrEmpty(cfg.suffix));
      if cfg.format.Some? {
        FourBackticks();
        ReturnsConcat([NEWLINE], Backticks(4) + cfg.format.value + [NEWLINE]);
        ReturnsConcat(Backticks(4) + cfg.format.value, [NEWLINE]);
        ReturnsConcat(Backticks(4), cfg.format.value);
        ReturnsConcat([NEWLINE], Backticks(4));
      }
    }
  }

  /** Fences and pairs do not change the number of carriage returns. */
  lemma ParameterReturns(d: Delivered, l: Member, configs: ConfigMap)
    requires LoadedAs(d, l)
    ensures Returns(StreamedParameter(d, configs)) == Returns(RenderParameter(l, configs))
  {
    hide Returns, StringValue, Units;
    if d.streamed && ShowsPieces(configs, d.member.key) { StreamedReturns(d, configs); }
    if d.member.value != l.value {
      var items :| LoadedFrom(d, l, items);
      PairReturns(items);
      if !Hidden(configs, l.key) {
        hide RenderParameter, StreamedParameter;
        RenderReturns(d.member, configs);
        RenderReturns(l, configs);
      }
    }
  }

  lemma {:induction false} AllReturns(ds: seq<Delivered>, ls: seq<Member>, configs: ConfigMap)
    requires AllLoadedAs(ds, ls)
    ensures Returns(StreamedParameters(ds, configs)) == Returns(RenderInOrder(ls, configs))
    decreases ds
  {
    hide Returns, RenderParameter, StreamedParameter, LoadedAs;
    if ds != [] {
      var n := |ds| - 1;
      AllReturns(ds[..n], ls[..n], configs);
      ParameterReturns(ds[n], ls[n], configs);
      RenderSnoc(ls[..n], ls[n], configs);
      assert ls == ls[..n] + [ls[n]];
      ReturnsConcat(StreamedParameters(ds[..n], configs), StreamedParameter(ds[n], configs));
      ReturnsConcat(RenderInOrder(ls[..n], configs), RenderParameter(ls[n], configs));
    }
  }

  /** Every key that repeats is ignored. */
  predicate RepeatsIgnored(pairs: seq<Member>, configs: ConfigMap) {
    forall i, j :: 0 <= i < j < |pairs| && pairs[i].key == pairs[j].key ==> Ignored(configs, pairs[j].key)
  }

  lemma ShownHasReturn(m: Member, configs: ConfigMap)
    ensures if Ignored(configs, m.key) then RenderParameter(m, configs) == [] else Returns(RenderParameter(m, configs)) > 0
  {
    hide NameMarkdown, PlainName, LineEnd, FormatValue, PyStr, OrEmpty, Returns;
    FenceReturns(0);
    if m.key !in configs {
      ReturnsConcat(PlainName(m.key) + PyStr(m.value), LineEnd());
    } else if !configs[m.key].ignore {
      var cfg := configs[m.key];
      ReturnsConcat(NameMarkdown(m.key, cfg) + OrEmpty(cfg.prefix) + FormatValue(m.value, cfg) + OrEmpty(cfg.suffix), LineEnd());
    }
  }

  /** Setting a key of a dict that renders: a key that was there and shows loses what it showed before. */
  lemma {:induction false} DictSetRenders(d: seq<Member>, m: Member, configs: ConfigMap)
    ensures Returns(RenderInOrder(DictSet(d, m), configs)) <= Returns(RenderInOrder(d, configs)) + Returns(RenderParameter(m, configs))
    ensures HasKey(d, m.key) && !Ignored(configs, m.key) ==>
      Returns(RenderInOrder(DictSet(d, m), configs)) < Returns(RenderInOrder(d, configs)) + Returns(RenderParameter(m, configs))
    ensures Ignored(configs, m.key) ==> RenderInOrder(DictSet(d, m), configs) == RenderInOrder(d, configs)
    decreases d
  {
    hide RenderParameter, Returns, Ignored;
    ShownHasReturn(m, configs);
    if d == [] {
      OneRenders(m, configs);
    } else {
      var first, rest := d[0], d[1..];
      ReturnsConcat(RenderParameter(first, configs), RenderInOrder(rest, configs));
      if first.key == m.key {
        ShownHasReturn(first, configs);
        assert ([m] + rest)[1..] == rest;
        ReturnsConcat(RenderParameter(m, configs), RenderInOrder(rest, configs));
      } else {
        DictSetRenders(rest, m, configs);
        assert ([first] + DictSet(rest, m))[1..] == DictSet(rest, m);
        ReturnsConcat(RenderParameter(first, configs), RenderInOrder(DictSet(rest, m), configs));
        if HasKey(d, m.key) {
          var i :| 0 <= i < |d| && d[i].key == m.key;
          assert rest[i - 1].key == m.key;
        }
      }
    }
  }

  lemma OneRenders(m: Member, configs: ConfigMap)
    ensures RenderInOrder([m], configs) == RenderParameter(m, configs) && RenderInOrder([], configs) == [] && Returns([]) == 0
  {
    assert [m][1..] == [];
    assert RenderParameter(m, configs) + [] == RenderParameter(m, configs);
  }

  lemma {:induction false} DictSetKeys(d: seq<Member>, m: Member, key: Text)
    ensures HasKey(DictSet(d, m), key) <==> HasKey(d, key) || key == m.key
    decreases d
  {
    if d == [] {
      assert HasKey([m], key) <==> [m][0].key == key;
    } else {
      HasKeyCons(d[0], d[1..], key);
      if d[0].key == m.key {
        HasKeyCons(m, d[1..], key);
      } else {
        DictSetKeys(d[1..], m, key);
        HasKeyCons(d[0], DictSet(d[1..], m), key);
      }
      assert d == [d[0]] + d[1..];
    }
  }

  lemma HasKeyCons(m: Member, rest: seq<Member>, key: Text)
    ensures HasKey([m] + rest, key) <==> m.key == key || HasKey(rest, key)
  {
    if HasKey(rest, key) {
      var i :| 0 <= i < |rest| && rest[i].key == key;
      assert ([m] + rest)[i + 1].key == key;
    }
    if m.key == key { assert ([m] + rest)[0].key == key; }
  }

  lemma HasKeySnoc(init: seq<Member>, m: Member, key: Text)
    ensures HasKey(init + [m], key) <==> HasKey(init, key) || m.key == key
  {
    if HasKey(init, key) {
      var i :| 0 <= i < |init| && init[i].key == key;
      assert (init + [m])[i].key == key;
    }
    if m.key == key { assert (init + [m])[|init|].key == key; }
  }

  lemma {:induction false} DictKeys(pairs: seq<Member>, key: Text)
    ensures HasKey(Dict(pairs), key) <==> HasKey(pairs, key)
    decreases pairs
  {
    if pairs != [] {
      var init, last := pairs[..|pairs| - 1], pairs[|pairs| - 1];
      DictKeys(init, key);
      DictSetKeys(Dict(init), last, key);
      HasKeySnoc(init, last, key);
      assert pairs == init + [last];
    }
  }

  lemma RepeatsSnoc(init: seq<Member>, m: Member, configs: ConfigMap)
    ensures RepeatsIgnored(init + [m], configs) <==>
            RepeatsIgnored(init, configs) && (HasKey(init, m.key) ==> Ignored(configs, m.key))
  {
    hide Ignored;
    var all := init + [m];
    if RepeatsIgnored(all, configs) {
      forall i, j | 0 <= i < j < |init| && init[i].key == init[j].key ensures Ignored(configs, init[j].key) {
        assert all[i] == init[i] && all[j] == init[j];
      }
      if HasKey(init, m.key) {
        var i :| 0 <= i < |init| && init[i].key == m.key;
        assert all[i].key == all[|init|].key;
      }
    }
    if RepeatsIgnored(init, configs) && (HasKey(init, m.key) ==> Ignored(configs, m.key)) {
      forall i, j | 0 <= i < j < |all| && all[i].key == all[j].key ensures Ignored(configs, all[j].key) {
        assert all[i] == init[i];
        if j < |init| { assert all[j] == init[j]; }
      }
    }
  }

  /** A dict renders as the pairs it is built from, or with fewer carriage returns, depending on the keys that repeat. */
  lemma {:induction false} DictRenders(pairs: seq<Member>, configs: ConfigMap)
    ensures RepeatsIgnored(pairs, configs) ==> RenderInOrder(Dict(pairs), configs) == RenderInOrder(pairs, configs)
    ensures Returns(RenderInOrder(Dict(pairs), configs)) <= Returns(RenderInOrder(pairs, configs))
    ensures !RepeatsIgnored(pairs, configs) ==>
      Returns(RenderInOrder(Dict(pairs), configs)) < Returns(RenderInOrder(pairs, configs))
    decreases pairs
  {
    hide RenderInOrder, RenderParameter, Returns, Dict, DictSet, HasKey, Ignored, RepeatsIgnored;
    if pairs == [] {
      NoRepeats(configs);
    } else {
      var init, last := pairs[..|pairs| - 1], pairs[|pairs| - 1];
      assert pairs == init + [last];
      DictRenders(init, configs);
      DictStep(init, last);
      DictKeys(init, last.key);
      DictSetRenders(Dict(init), last, configs);
      RepeatsSnoc(init, last, configs);
      RenderSnoc(init, last, configs);
      ReturnsConcat(RenderInOrder(init, configs), RenderParameter(last, configs));
      ShownHasReturn(last, configs);
      if !HasKey(init, last.key) { NewKeyRenders(Dict(init), last, configs); }
      RightEmpty(RenderInOrder(init, configs));
    }
  }

  lemma NoRepeats(configs: ConfigMap)
    ensures RepeatsIgnored([], configs) && Dict([]) == []
  {
  }

  lemma NewKeyRenders(d: seq<Member>, m: Member, configs: ConfigMap)
    requires !HasKey(d, m.key)
    ensures RenderInOrder(DictSet(d, m), configs) == RenderInOrder(d, configs) + RenderParameter(m, configs)
  {
    RenderSnoc(d, m, configs);
  }

  // --- a legal object against the static dump -----------------------------

  /** No escaped surrogate pair in a top-level key. */
  predicate KeysPairFree(ms: Members) {
    Units(ms.m.key) == StringValue(ms.m.key) && (ms.MoreMembers? ==> KeysPairFree(ms.rest))
  }

  lemma {:induction false} DeliveredIsLoaded(ms: Members)
    requires KeysPairFree(ms)
    ensures AllLoadedAs(MembersDelivered(ms), MemberValues(ms))
    decreases ms
  {
    EntryIsLoaded(ms.m);
    hide LoadedAs, EntryDelivered, EntryValue;
    if ms.MoreMembers? { DeliveredIsLoaded(ms.rest); }
  }

  lemma EntryIsLoaded(m: Entry)
    requires Units(m.key) == StringValue(m.key)
    ensures LoadedAs(EntryDelivered(m), EntryValue(m))
  {
    if m.value.Literal? && m.value.items != [] {
      assert LoadedFrom(EntryDelivered(m), EntryValue(m), m.value.items);
    }
  }

  /** The members of an object as loaded, before a dict is made of them. */
  function ObjectValues(doc: Syntax): seq<Member> {
    if doc.Object? then MemberValues(doc.members) else []
  }

  /**
   CONFIG_MAP mode, every legal object text whose top-level keys have no escaped surrogate pair, any chunks:
   the streamed text is the static rendering of the loaded arguments in arrival order if and only if every
   repeated key is ignored, no non-empty unreplaced string has a format, and every string value with an
   escaped surrogate pair is ignored or replaced. In display order that rendering is the static dump.
   */
  lemma ConfigModeMatchesStatic(configs: ConfigMap, before: Padding, doc: Syntax, after: Padding, chunks: seq<Text>)
    requires doc.EmptyObject? || doc.Object?
    requires Concat(chunks) == before + SyntaxText(doc) + after
    requires doc.Object? ==> KeysPairFree(doc.members)
    ensures var shown, params := OutText(Present(ConfigMapMode(configs), BLANK, INITIAL, chunks).out), Params(Concat(chunks));
      && (shown == ConfigHeader() + RenderInOrder(params, configs) <==>
            RepeatsIgnored(ObjectValues(doc), configs) && AllAlike(ObjectDelivered(doc), ObjectValues(doc), configs))
      && (InOrder(params, configs) ==> RenderParameters(params, configs) == ConfigHeader() + RenderInOrder(params, configs))
  {
    LegalObjectEvents(before, doc, after, chunks);
    ChunkingIsIrrelevant(INITIAL, chunks);
    NoteObject(doc);
    NoteHears(UNHEARD, ObjectEvents(doc));
    ConfigModeShowsDelivered(configs, chunks);
    ParamsOfObject(before, doc, after);
    if doc.Object? { DeliveredIsLoaded(doc.members); }
    hide StreamedParameters, RenderInOrder, AllAlike, OutText, Present, ConfigHeader, InOrder, OrderParameters, Feed,
         RepeatsIgnored, AllLoadedAs, KeysPairFree;
    var ds, ls, params := ObjectDelivered(doc), ObjectValues(doc), Params(Concat(chunks));
    NothingDelivered();
    NoDict();
    assert params == Dict(ls) && AllLoadedAs(ds, ls);
    RightEmpty(ConfigHeader() + StreamedParameters(ds, configs));
    RenderingsAgree(ds, ls, configs);
    if InOrder(params, configs) { OrderedStays(params, configs); }
  }

  lemma NothingDelivered()
    ensures AllLoadedAs([], [])
  {
  }

  lemma NoDict()
    ensures Dict([]) == []
  {
  }

  lemma RenderingsAgree(ds: seq<Delivered>, ls: seq<Member>, configs: ConfigMap)
    requires AllLoadedAs(ds, ls)
    ensures ConfigHeader() + StreamedParameters(ds, configs) == ConfigHeader() + RenderInOrder(Dict(ls), configs)
       <==> RepeatsIgnored(ls, configs) && AllAlike(ds, ls, configs)
  {
    hide StreamedParameters, RenderInOrder, ConfigHeader, RepeatsIgnored, AllAlike, AllLoadedAs, Dict, Returns;
    DictRenders(ls, configs);
    if RepeatsIgnored(ls, configs) && AllAlike(ds, ls, configs) { AllAlikeRender(ds, ls, configs); }
    if ConfigHeader() + StreamedParameters(ds, configs) == ConfigHeader() + RenderInOrder(Dict(ls), configs) {
      Cancelled(ConfigHeader(), StreamedParameters(ds, configs), RenderInOrder(Dict(ls), configs));
      AllReturns(ds, ls, configs);
      EqualRenderingsAreAlike(ds, ls, configs, [], []);
    }
  }
}
