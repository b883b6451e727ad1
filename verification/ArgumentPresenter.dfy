/**
 The live renderer of streamed tool arguments. `Sheet`, `Apply` and `Finish` say what one event
 and the end of the stream do; the class is the presenter, proved against them.
 */
module ArgumentPresenter {
  import opened PyText
  import opened Json
  import opened ParameterFormat
  import opened ArgumentStreamer

  datatype Presentation =
    | ConfigMapMode(configs: ConfigMap)
    | JsonObjectMode

  /** One call of the append callback. */
  datatype Piece =
    | Raw(text: Text)
    | FenceOpen(language: Text)
    | FenceClose
    | JsonOpen
    | JsonClose

  function JsonHeader(): Text { Lit("> ##### Request:\n```json\n") }

  function JsonFooter(): Text { Lit("\n```\n\n") }

  function PieceText(p: Piece): Text {
    match p
    case Raw(text) => text
    case FenceOpen(language) => Lit("````") + language + [NEWLINE]
    case FenceClose => [NEWLINE] + Lit("````")
    case JsonOpen => JsonHeader() + [LBRACE, NEWLINE]
    case JsonClose => [NEWLINE, RBRACE] + JsonFooter()
  }

  function OutText(out: seq<Piece>): Text {
    if out == [] then [] else OutText(out[..|out| - 1]) + PieceText(out[|out| - 1])
  }

  datatype Sheet = Sheet(
    headerWritten: bool,
    skipKey: bool,
    stringOpen: bool,
    fenceOpen: bool,
    jsonFirstKey: bool,
    jsonStringOpen: bool,
    bodyStreamed: bool,
    finished: bool,
    out: seq<Piece>)

  const BLANK := Sheet(false, false, false, false, true, false, false, false, [])

  function Put(p: Sheet, piece: Piece): Sheet {
    p.(out := p.out + [piece])
  }

  function OnKey(pr: Presentation, p: Sheet, key: Text): Sheet {
    p.(stringOpen := false, fenceOpen := false,
       skipKey := pr.ConfigMapMode? && key in pr.configs && pr.configs[key].ignore)
  }

  // --- CONFIG_MAP ---------------------------------------------------------

  function EnsureConfigHeader(p: Sheet): (r: Sheet)
    ensures r.finished == p.finished && r.skipKey == p.skipKey
  {
    if p.headerWritten then p
    else Put(p, Raw(ConfigHeader())).(headerWritten := true, bodyStreamed := true)
  }

  function PutName(p: Sheet, key: Text, cfg: Config): (r: Sheet)
    ensures r.finished == p.finished && r.skipKey == p.skipKey
  {
    Put(Put(p, Raw(NameMarkdown(key, cfg))), Raw(OrEmpty(cfg.prefix)))
  }

  function OpenConfigString(configs: ConfigMap, p: Sheet, key: Text): (r: Sheet)
    ensures r.finished == p.finished && r.skipKey == p.skipKey
  {
    var p := EnsureConfigHeader(p);
    var p :=
      if key !in configs then Put(p, Raw(PlainName(key)))
      else
        var named := PutName(p, key, configs[key]);
        if configs[key].format.None? then named
        else Put(Put(named, Raw([NEWLINE])), FenceOpen(configs[key].format.value)).(fenceOpen := true);
    p.(stringOpen := true)
  }

  function ConfigStringChars(configs: ConfigMap, p: Sheet, key: Text, text: Text): (r: Sheet)
    ensures r.finished == p.finished && r.skipKey == p.skipKey
  {
    if key in configs && configs[key].replacedValueInfo.Some? then p
    else Put(if p.stringOpen then p else OpenConfigString(configs, p, key), Raw(text))
  }

  function PutSuffix(configs: ConfigMap, p: Sheet, key: Text): (r: Sheet)
    ensures r.finished == p.finished && r.skipKey == p.skipKey
  {
    Put(if key in configs then Put(p, Raw(OrEmpty(configs[key].suffix))) else p, Raw(LineEnd()))
  }

  function CloseConfigString(configs: ConfigMap, p: Sheet, key: Text): (r: Sheet)
    ensures r.finished == p.finished && r.skipKey == p.skipKey
  {
    var p := if p.fenceOpen then Put(p, FenceClose).(fenceOpen := false) else p;
    PutSuffix(configs, p, key).(stringOpen := false)
  }

  function ConfigValueComplete(configs: ConfigMap, p: Sheet, key: Text, value: Json): (r: Sheet)
    ensures r.finished == p.finished && r.skipKey == p.skipKey
  {
    if key in configs && configs[key].ignore then p
    else if p.stringOpen then CloseConfigString(configs, p, key)
    else
      var p := EnsureConfigHeader(p);
      if key !in configs then Put(p, Raw(PlainName(key) + PyStr(value) + LineEnd()))
      else PutSuffix(configs, Put(PutName(p, key, configs[key]), Raw(FormatValue(value, configs[key]))), key)
  }

  // --- JSON_OBJECT --------------------------------------------------------

  function EnsureJsonHeader(p: Sheet): (r: Sheet)
    ensures r.finished == p.finished && r.skipKey == p.skipKey
  {
    if p.headerWritten then p else Put(p, JsonOpen).(headerWritten := true, bodyStreamed := true)
  }

  function SeparateKeys(p: Sheet): (r: Sheet)
    ensures r.finished == p.finished && r.skipKey == p.skipKey
  {
    (if p.jsonFirstKey then p else Put(p, Raw([COMMA, NEWLINE]))).(jsonFirstKey := false)
  }

  function BeginMember(p: Sheet, text: Text): (r: Sheet)
    ensures r.finished == p.finished && r.skipKey == p.skipKey
  {
    Put(SeparateKeys(EnsureJsonHeader(p)), Raw(text))
  }

  function KeyText(key: Text): Text { Indent(1) + DumpsString(key) + Lit(": ") }

  function JsonStringChars(p: Sheet, key: Text, text: Text): (r: Sheet)
    ensures r.finished == p.finished && r.skipKey == p.skipKey
  {
    var p :=
      if p.jsonStringOpen then p
      else BeginMember(p, KeyText(key) + [QUOTE]).(jsonStringOpen := true);
    Put(p, Raw(Escape(text)))
  }

  /** `t.replace("\n", "\n    ")`. */
  function Reindent(t: Text): Text {
    if t == [] then []
    else (if t[0] == NEWLINE then Break(1) else [t[0]]) + Reindent(t[1..])
  }

  function JsonValueComplete(p: Sheet, key: Text, value: Json): (r: Sheet)
    ensures r.finished == p.finished && r.skipKey == p.skipKey
  {
    if p.jsonStringOpen then Put(p, Raw([QUOTE])).(jsonStringOpen := false)
    else
      BeginMember(p, KeyText(key) + Reindent(Dumps(value, 0)))
  }

  // --- events -------------------------------------------------------------

  function Apply(pr: Presentation, p: Sheet, e: Event): Sheet {
    match e
    case KeyReady(key) => OnKey(pr, p, key)
    case StringChars(key, text) =>
      if p.skipKey then p
      else if pr.ConfigMapMode? then ConfigStringChars(pr.configs, p, key, text)
      else JsonStringChars(p, key, text)
    case ValueComplete(key, value) =>
      (if pr.ConfigMapMode? then ConfigValueComplete(pr.configs, p, key, value) else JsonValueComplete(p, key, value))
        .(skipKey := false, stringOpen := false)
    case ObjectDone =>
      (if pr.ConfigMapMode? then EnsureConfigHeader(p)
       else if p.headerWritten then Put(p, JsonClose)
       else p)
        .(bodyStreamed := true, finished := true)
  }

  function ApplyAll(pr: Presentation, p: Sheet, events: seq<Event>): Sheet
    decreases events
  {
    if events == [] then p else ApplyAll(pr, Apply(pr, p, events[0]), events[1..])
  }

  /** The stream ended, perhaps in the middle of a value. */
  function Finish(pr: Presentation, p: Sheet): Sheet {
    if p.finished then p
    else if pr.ConfigMapMode? then
      (if p.fenceOpen then Put(Put(p, FenceClose), Raw(LineEnd())).(fenceOpen := false, bodyStreamed := true) else p)
        .(finished := true)
    else
      (if p.headerWritten then
         Put(if p.jsonStringOpen then Put(p, Raw([QUOTE])).(jsonStringOpen := false) else p, JsonClose)
           .(bodyStreamed := true)
       else p)
        .(finished := true)
  }

  /** Sheet and streamer after one chunk. */
  function FeedChunk(pr: Presentation, p: Sheet, s: State, chunk: Text): (Sheet, State) {
    if p.finished || chunk == [] then (p, s)
    else (ApplyAll(pr, p, Feed(s, chunk).events), Feed(s, chunk).state)
  }

  /** The sheet after all chunks and `finish`. */
  function Present(pr: Presentation, p: Sheet, s: State, chunks: seq<Text>): Sheet
    decreases chunks
  {
    if chunks == [] then Finish(pr, p)
    else
      var (p', s') := FeedChunk(pr, p, s, chunks[0]);
      Present(pr, p', s', chunks[1..])
  }

  lemma {:induction false} ApplyConcat(pr: Presentation, p: Sheet, a: seq<Event>, b: seq<Event>)
    ensures ApplyAll(pr, p, a + b) == ApplyAll(pr, ApplyAll(pr, p, a), b)
    decreases a
  {
    if a == [] {
      assert a + b == b;
    } else {
      assert (a + b)[1..] == a[1..] + b;
      ApplyConcat(pr, Apply(pr, p, a[0]), a[1..], b);
    }
  }

  // --- the presenter object -----------------------------------------------

  class StreamingArgumentPresenter {
    const presentation: Presentation
    const streamer: JsonObjectArgumentStreamer
    var headerWritten: bool
    var skipKey: bool
    var stringOpen: bool
    var fenceOpen: bool
    var jsonFirstKey: bool
    var jsonStringOpen: bool
    var requestBodyStreamed: bool
    var finished: bool
    /** Every call of the append callback so far. */
    var appended: seq<Piece>

    constructor (presentation: Presentation)
      ensures this.presentation == presentation
      ensures View() == BLANK && fresh(streamer) && streamer.View() == INITIAL
    {
      this.presentation := presentation;
      streamer := new JsonObjectArgumentStreamer();
      headerWritten, skipKey, stringOpen, fenceOpen := false, false, false, false;
      jsonFirstKey, jsonStringOpen, requestBodyStreamed, finished := true, false, false, false;
      appended := [];
    }

    function View(): Sheet
      reads this
    {
      Sheet(headerWritten, skipKey, stringOpen, fenceOpen, jsonFirstKey, jsonStringOpen,
            requestBodyStreamed, finished, appended)
    }

    method Append(p: Piece)
      modifies this`appended
      ensures appended == old(appended) + [p]
    {
      appended := appended + [p];
    }

    method FeedArguments(chunk: Text)
      modifies this, streamer
      ensures (View(), streamer.View()) == FeedChunk(presentation, old(View()), old(streamer.View()), chunk)
    {
      if finished || chunk == [] { return; }
      var events := streamer.FeedChunk(chunk);
      ghost var start := View();
      for i := 0 to |events|
        invariant View() == ApplyAll(presentation, start, events[..i])
        invariant streamer.View() == Feed(old(streamer.View()), chunk).state
      {
        ApplyEvent(events[i]);
        ApplyConcat(presentation, start, events[..i], [events[i]]);
        assert events[..i + 1] == events[..i] + [events[i]];
        assert [events[i]][1..] == [];
      }
      assert events[..|events|] == events;
    }

    method FinishStream()
      modifies this
      ensures View() == Finish(presentation, old(View()))
    {
      if finished { return; }
      if presentation.ConfigMapMode? {
        if fenceOpen {
          Append(FenceClose);
          Append(Raw(LineEnd()));
          fenceOpen, requestBodyStreamed := false, true;
        }
      } else if headerWritten {
        if jsonStringOpen {
          Append(Raw([QUOTE]));
          jsonStringOpen := false;
        }
        Append(JsonClose);
        requestBodyStreamed := true;
      }
      finished := true;
    }

    method ApplyEvent(e: Event)
      modifies this
      ensures View() == Apply(presentation, old(View()), e)
    {
      match e {
        case KeyReady(key) =>
          stringOpen, fenceOpen := false, false;
          skipKey := presentation.ConfigMapMode? && key in presentation.configs && presentation.configs[key].ignore;
        case StringChars(key, text) => OnStringChars(key, text);
        case ValueComplete(key, value) => OnValueComplete(key, value);
        case ObjectDone => OnObjectDone();
      }
    }

    method OnStringChars(key: Text, text: Text)
      modifies this
      ensures View() == Apply(presentation, old(View()), StringChars(key, text))
    {
      if skipKey { return; }
      if presentation.ConfigMapMode? { OnConfigStringChars(key, text); } else { OnJsonStringChars(key, text); }
    }

    method OnValueComplete(key: Text, value: Json)
      modifies this
      ensures View() == Apply(presentation, old(View()), ValueComplete(key, value))
    {
      if presentation.ConfigMapMode? { OnConfigValueComplete(key, value); } else { OnJsonValueComplete(key, value); }
      skipKey, stringOpen := false, false;
    }

    method OnObjectDone()
      modifies this
      ensures View() == Apply(presentation, old(View()), ObjectDone)
    {
      if presentation.ConfigMapMode? {
        WriteConfigHeader();
      } else if headerWritten {
        Append(JsonClose);
      }
      requestBodyStreamed, finished := true, true;
    }

    method WriteConfigHeader()
      modifies this
      ensures View() == EnsureConfigHeader(old(View()))
    {
      if !headerWritten {
        Append(Raw(ConfigHeader()));
        headerWritten, requestBodyStreamed := true, true;
      }
    }

    method AppendName(key: Text, cfg: Config)
      modifies this`appended
      ensures View() == PutName(old(View()), key, cfg)
    {
      Append(Raw(NameMarkdown(key, cfg)));
      Append(Raw(OrEmpty(cfg.prefix)));
    }

    method AppendSuffix(key: Text)
      requires presentation.ConfigMapMode?
      modifies this`appended
      ensures View() == PutSuffix(presentation.configs, old(View()), key)
    {
      if key in presentation.configs { Append(Raw(OrEmpty(presentation.configs[key].suffix))); }
      Append(Raw(LineEnd()));
    }

    method OnConfigStringChars(key: Text, text: Text)
      requires presentation.ConfigMapMode?
      modifies this
      ensures View() == ConfigStringChars(presentation.configs, old(View()), key, text)
    {
      if key in presentation.configs && presentation.configs[key].replacedValueInfo.Some? { return; }
      if !stringOpen {
        WriteConfigHeader();
        if key in presentation.configs {
          var cfg := presentation.configs[key];
          AppendName(key, cfg);
          if cfg.format.Some? {
            Append(Raw([NEWLINE]));
            Append(FenceOpen(cfg.format.value));
            fenceOpen := true;
          }
        } else {
          Append(Raw(PlainName(key)));
        }
        stringOpen := true;
      }
      Append(Raw(text));
    }

    method FinishConfigString(key: Text)
      requires presentation.ConfigMapMode?
      modifies this
      ensures View() == CloseConfigString(presentation.configs, old(View()), key)
    {
      if fenceOpen {
        Append(FenceClose);
        fenceOpen := false;
      }
      AppendSuffix(key);
      stringOpen := false;
    }

    method OnConfigValueComplete(key: Text, value: Json)
      requires presentation.ConfigMapMode?
      modifies this
      ensures View() == ConfigValueComplete(presentation.configs, old(View()), key, value)
    {
      if key in presentation.configs && presentation.configs[key].ignore { return; }
      if stringOpen {
        FinishConfigString(key);
        return;
      }
      WriteConfigHeader();
      if key in presentation.configs {
        var cfg := presentation.configs[key];
        AppendName(key, cfg);
        Append(Raw(FormatValue(value, cfg)));
        AppendSuffix(key);
      } else {
        Append(Raw(PlainName(key) + PyStr(value) + LineEnd()));
      }
    }

    method WriteJsonHeader()
      modifies this
      ensures View() == EnsureJsonHeader(old(View()))
    {
      if !headerWritten {
        Append(JsonOpen);
        headerWritten, requestBodyStreamed := true, true;
      }
    }

    method StartMember(text: Text)
      modifies this
      ensures View() == BeginMember(old(View()), text)
    {
      WriteJsonHeader();
      if !jsonFirstKey { Append(Raw([COMMA, NEWLINE])); }
      jsonFirstKey := false;
      Append(Raw(text));
    }

    method OnJsonStringChars(key: Text, text: Text)
      modifies this
      ensures View() == JsonStringChars(old(View()), key, text)
    {
      if !jsonStringOpen {
        StartMember(KeyText(key) + [QUOTE]);
        jsonStringOpen := true;
      }
      Append(Raw(Escape(text)));
    }

    method OnJsonValueComplete(key: Text, value: Json)
      modifies this
      ensures View() == JsonValueComplete(old(View()), key, value)
    {
      if jsonStringOpen {
        Append(Raw([QUOTE]));
        jsonStringOpen := false;
        return;
      }
      StartMember(KeyText(key) + Reindent(Dumps(value, 0)));
    }
  }
}
