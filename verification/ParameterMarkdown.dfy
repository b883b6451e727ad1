/** What the static rendering of parameters promises its reader, whatever the display configuration. */
module ParameterMarkdown {
  import opened PyText
  import opened Json
  import opened Wrappers
  import opened ParameterFormat

  // --- fences -------------------------------------------------------------

  predicate AllBackticks(t: Text) { forall i :: 0 <= i < |t| ==> t[i] == '`' as int }

  /** `n` backticks in a row. */
  ghost predicate HasRun(t: Text, n: nat) {
    exists i :: IsRunAt(t, n, i)
  }

  predicate IsRunAt(t: Text, n: nat, i: int) { 0 <= i && i + n <= |t| && AllBackticks(t[i..i + n]) }

  /**
   The fence around a text is one the text cannot close: backticks, three at least, more in a row than
   anywhere in the text, and no more than that takes.
   */
  lemma FenceSurvivesText(text: Text, language: Text) returns (fence: Text)
    ensures FencedBlock(text, language) == fence + language + Lit("\n") + text + Lit("\n") + fence
    ensures AllBackticks(fence) && |fence| >= 3
    ensures !HasRun(text, |fence|)
    ensures |fence| > 3 ==> HasRun(text, |fence| - 1)
  {
    var longest := LongestRun(text, 0);
    fence := Backticks(if longest + 1 > 3 then longest + 1 else 3);
    assert Lit("\n") == [NEWLINE];
    hide LongestRun;
    forall i ensures !IsRunAt(text, |fence|, i) {
      if IsRunAt(text, |fence|, i) {
        forall k | i <= k < i + |fence| ensures text[k] == BACKTICK {
          assert text[i..i + |fence|][k - i] == text[k];
        }
        LongestRunBounds(text, 0, i, i + |fence|);
      }
    }
    var from, to := LongestRunOccurs(text, 0);
    if |fence| > 3 { assert IsRunAt(text, |fence| - 1, from); }
  }

  // --- one parameter ------------------------------------------------------

  /** Texts that are absent and texts that are empty say the same. */
  predicate SameText(a: Option<Text>, b: Option<Text>) {
    a == b || (a in {None, Some([])} && b in {None, Some([])})
  }

  /** The name is the configured one, else none if it is to be ignored, else the parameter's own in bold italics. */
  lemma ShownName(key: Text, cfg: Config)
    ensures NameMarkdown(key, cfg) ==
            if !SameText(cfg.name, None) then cfg.name.value
            else if cfg.ignoreParameterName then Lit("")
            else Lit("***") + key + Lit(":*** ")
  {
  }

  /** The value, or what is to be shown in its place, fenced on lines of its own if a format is given. */
  lemma ShownValue(value: Json, cfg: Config)
    ensures var shown := if SameText(cfg.replacedValueInfo, None) then PyStr(value) else cfg.replacedValueInfo.value;
      FormatValue(value, cfg) ==
        if cfg.format == None then shown else Lit("\n") + FencedBlock(shown, cfg.format.value) + Lit("\n")
  {
    assert Lit("\n") == [NEWLINE];
  }

  /** A parameter is its name, prefix, value and suffix on a line of its own. */
  lemma ShownParameter(m: Member, configs: ConfigMap)
    requires m.key in configs && !configs[m.key].ignore
    ensures var cfg := configs[m.key];
      var prefix := if cfg.prefix == None then Lit("") else cfg.prefix.value;
      var suffix := if cfg.suffix == None then Lit("") else cfg.suffix.value;
      RenderParameter(m, configs) == NameMarkdown(m.key, cfg) + prefix + FormatValue(m.value, cfg) + suffix + Lit("\n\r")
  {
    assert Lit("\n\r") == [NEWLINE, 0x0D];
    hide NameMarkdown, FormatValue;
  }

  /** The configuration that changes nothing but the place. */
  function PlainConfig(order: int): Config {
    Config(false, false, None, None, None, None, None, order)
  }

  /** A parameter without a configuration is rendered as under one that says nothing. */
  lemma NoConfigIsPlain(m: Member, configs: ConfigMap, order: int)
    ensures RenderParameter(m, configs - {m.key}) == RenderParameter(m, configs[m.key := PlainConfig(order)])
  {
    var name, value := PlainName(m.key), PyStr(m.value);
    assert name + [] + value + [] == name + value;
    hide PlainName, PyStr;
  }

  /** An empty name, prefix, suffix or replacement is none, and the place in the order does not show in a parameter. */
  lemma EmptyIsNone(m: Member, configs: ConfigMap, cfg: Config)
    requires m.key in configs && cfg.ignore == configs[m.key].ignore
    requires cfg.ignoreParameterName == configs[m.key].ignoreParameterName && cfg.format == configs[m.key].format
    requires SameText(cfg.name, configs[m.key].name) && SameText(cfg.replacedValueInfo, configs[m.key].replacedValueInfo)
    requires SameText(cfg.prefix, configs[m.key].prefix) && SameText(cfg.suffix, configs[m.key].suffix)
    ensures RenderParameter(m, configs[m.key := cfg]) == RenderParameter(m, configs)
  {
    hide PlainName, PyStr, FencedBlock;
  }

  /** What stands in the place of a value keeps the value out of the text. */
  lemma ReplacedValueIsHidden(m: Member, value: Json, configs: ConfigMap)
    requires m.key in configs && !SameText(configs[m.key].replacedValueInfo, None)
    ensures RenderParameter(m, configs) == RenderParameter(Member(m.key, value), configs)
  {
    hide PyStr, FencedBlock, NameMarkdown;
  }

  // --- all parameters -----------------------------------------------------

  lemma {:induction false} RenderConcat(a: seq<Member>, b: seq<Member>, configs: ConfigMap)
    ensures RenderInOrder(a + b, configs) == RenderInOrder(a, configs) + RenderInOrder(b, configs)
    decreases a
  {
    hide RenderParameter;
    if a == [] {
      assert a + b == b;
    } else {
      assert (a + b)[1..] == a[1..] + b;
      RenderConcat(a[1..], b, configs);
    }
  }

  lemma {:induction false} SameOrderInserts(sorted: seq<Member>, m: Member, a: ConfigMap, b: ConfigMap)
    requires forall x :: OrderOf(x, a) == OrderOf(x, b)
    ensures InsertByOrder(sorted, m, a) == InsertByOrder(sorted, m, b)
    decreases sorted
  {
    if sorted != [] { SameOrderInserts(sorted[1..], m, a, b); }
  }

  /** A parameter without a configuration stands where order zero stands. */
  lemma {:induction false} NoConfigIsOrderZero(params: seq<Member>, key: Text, configs: ConfigMap)
    requires key !in configs
    ensures OrderParameters(params, configs) == OrderParameters(params, configs[key := PlainConfig(0)])
    decreases params
  {
    if params != [] {
      var init := params[..|params| - 1];
      NoConfigIsOrderZero(init, key, configs);
      SameOrderInserts(OrderParameters(init, configs), params[|params| - 1], configs, configs[key := PlainConfig(0)]);
    }
  }

  /** The parameters that are not ignored. */
  function Shown(params: seq<Member>, configs: ConfigMap): seq<Member> {
    if params == [] then []
    else
      (if params[0].key in configs && configs[params[0].key].ignore then [] else [params[0]])
      + Shown(params[1..], configs)
  }

  lemma IgnoredShowsNothing(m: Member, configs: ConfigMap)
    ensures m.key in configs && configs[m.key].ignore ==> RenderParameter(m, configs) == []
  {
    hide NameMarkdown, FormatValue;
  }

  lemma {:induction false} IgnoredLeaveNoTrace(params: seq<Member>, configs: ConfigMap)
    ensures RenderInOrder(params, configs) == RenderInOrder(Shown(params, configs), configs)
    decreases params
  {
    if params != [] {
      IgnoredLeaveNoTrace(params[1..], configs);
      IgnoredShowsNothing(params[0], configs);
      hide RenderParameter;
      var rest := Shown(params[1..], configs);
      assert Shown(params, configs) == [params[0]] + rest || Shown(params, configs) == rest;
      assert ([params[0]] + rest)[1..] == rest;
    }
  }

  /** The dump is the request header and the parameters that are not ignored, in display order. */
  lemma DumpShowsTheRest(params: seq<Member>, configs: ConfigMap)
    ensures RenderParameters(params, configs) ==
            Lit("> #### Request:\n\r") + RenderInOrder(Shown(OrderParameters(params, configs), configs), configs)
  {
    IgnoredLeaveNoTrace(OrderParameters(params, configs), configs);
    var header := Lit("> #### Request:\n\r");
    assert header == Lit("> #### Request:") + [NEWLINE, 0x0D];
    hide OrderParameters, RenderInOrder, Shown;
  }
}
