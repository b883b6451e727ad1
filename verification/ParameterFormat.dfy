/** The static Markdown of tool parameters, which the live presenter has to agree with. */
module ParameterFormat {
  import opened PyText
  import opened Json
  import opened Wrappers

  datatype Config = Config(
    ignore: bool,
    ignoreParameterName: bool,
    name: Option<Text>,
    prefix: Option<Text>,
    suffix: Option<Text>,
    replacedValueInfo: Option<Text>,
    format: Option<Text>,
    order: int)

  type ConfigMap = map<Text, Config>

  /** `str(value)` of a value that is no string: foreign code. */
  const ReprOf: Json -> Text

  function PyStr(v: Json): Text {
    if v.Str? then v.text else ReprOf(v)
  }

  /** `x if x else ""` on an optional string. */
  function OrEmpty(x: Option<Text>): Text {
    if x.Some? then x.value else []
  }

  function PlainName(name: Text): Text { Lit("***") + name + Lit(":*** ") }

  function NameMarkdown(name: Text, cfg: Config): Text {
    if OrEmpty(cfg.name) != [] then cfg.name.value
    else if cfg.ignoreParameterName then []
    else PlainName(name)
  }

  const BACKTICK: CodePoint := 0x60

  /** The longest run of backticks in `t`, given one of length `run` right before it. */
  function LongestRun(t: Text, run: nat): (n: nat)
    ensures n >= run
    decreases t
  {
    if t == [] then run
    else if t[0] == BACKTICK then LongestRun(t[1..], run + 1)
    else var rest := LongestRun(t[1..], 0); if rest > run then rest else run
  }

  /** No run of backticks in the text is longer. */
  lemma {:induction false} LongestRunBounds(t: Text, run: nat, from: nat, to: nat)
    requires from <= to <= |t| && forall i :: from <= i < to ==> t[i] == BACKTICK
    ensures to - from + (if from == 0 then run else 0) <= LongestRun(t, run)
    decreases t
  {
    if t != [] && to > 0 {
      var rest, next := t[1..], if t[0] == BACKTICK then run + 1 else 0;
      LongestRunBounds(rest, next, if from == 0 then 0 else from - 1, to - 1);
    }
  }

  /** A run of that length occurs, unless the text has none and the one before it counts. */
  lemma {:induction false} LongestRunOccurs(t: Text, run: nat) returns (from: nat, to: nat)
    ensures from <= to <= |t| && forall i :: from <= i < to ==> t[i] == BACKTICK
    ensures LongestRun(t, run) == to - from + if from == 0 then run else 0
    decreases t
  {
    if t == [] {
      from, to := 0, 0;
    } else if t[0] == BACKTICK {
      from, to := LongestRunOccurs(t[1..], run + 1);
      if from == 0 { to := to + 1; } else { from, to := from + 1, to + 1; }
    } else {
      from, to := LongestRunOccurs(t[1..], 0);
      if LongestRun(t[1..], 0) > run {
        from, to := from + 1, to + 1;
      } else {
        from, to := 0, 0;
      }
    }
  }

  function Backticks(n: nat): (t: Text)
    ensures |t| == n
  {
    seq(n, _ => BACKTICK)
  }

  function FencedBlock(text: Text, language: Text): Text {
    var longest := LongestRun(text, 0);
    var fence := Backticks(if longest + 1 > 3 then longest + 1 else 3);
    fence + language + [NEWLINE] + text + [NEWLINE] + fence
  }

  function FormatValue(value: Json, cfg: Config): Text {
    var shown := if OrEmpty(cfg.replacedValueInfo) != [] then cfg.replacedValueInfo.value else PyStr(value);
    if cfg.format.Some? then [NEWLINE] + FencedBlock(shown, cfg.format.value) + [NEWLINE] else shown
  }

  function LineEnd(): Text { [NEWLINE, 0x0D] }

  function ConfigHeader(): Text { Lit("> #### Request:") + LineEnd() }

  /** One parameter of the static dump. */
  function RenderParameter(m: Member, configs: ConfigMap): Text {
    if m.key !in configs then PlainName(m.key) + PyStr(m.value) + LineEnd()
    else
      var cfg := configs[m.key];
      if cfg.ignore then []
      else
        NameMarkdown(m.key, cfg) + OrEmpty(cfg.prefix) + FormatValue(m.value, cfg) + OrEmpty(cfg.suffix) + LineEnd()
  }

  function RenderInOrder(params: seq<Member>, configs: ConfigMap): Text {
    if params == [] then [] else RenderParameter(params[0], configs) + RenderInOrder(params[1..], configs)
  }

  function OrderOf(m: Member, configs: ConfigMap): int {
    if m.key in configs then configs[m.key].order else 0
  }

  /** Insert behind every parameter of the same or a lower order: `sorted` is stable. */
  function InsertByOrder(sorted: seq<Member>, m: Member, configs: ConfigMap): seq<Member> {
    if sorted == [] then [m]
    else if OrderOf(m, configs) < OrderOf(sorted[0], configs) then [m] + sorted
    else [sorted[0]] + InsertByOrder(sorted[1..], m, configs)
  }

  function OrderParameters(params: seq<Member>, configs: ConfigMap): seq<Member> {
    if params == [] then []
    else InsertByOrder(OrderParameters(params[..|params| - 1], configs), params[|params| - 1], configs)
  }

  /** The static dump: `render_config_map_parameters`. */
  function RenderParameters(params: seq<Member>, configs: ConfigMap): Text {
    ConfigHeader() + RenderInOrder(OrderParameters(params, configs), configs)
  }

  predicate InOrder(params: seq<Member>, configs: ConfigMap) {
    forall i, j :: 0 <= i < j < |params| ==> OrderOf(params[i], configs) <= OrderOf(params[j], configs)
  }

  lemma {:induction false} InsertLast(sorted: seq<Member>, m: Member, configs: ConfigMap)
    requires forall i :: 0 <= i < |sorted| ==> OrderOf(sorted[i], configs) <= OrderOf(m, configs)
    ensures InsertByOrder(sorted, m, configs) == sorted + [m]
    decreases sorted
  {
    if sorted != [] {
      InsertLast(sorted[1..], m, configs);
    }
  }

  /** Parameters that already stand in display order stay where they are. */
  lemma {:induction false} OrderedStays(params: seq<Member>, configs: ConfigMap)
    requires InOrder(params, configs)
    ensures OrderParameters(params, configs) == params
    decreases params
  {
    if params != [] {
      var init := params[..|params| - 1];
      OrderedStays(init, configs);
      InsertLast(init, params[|params| - 1], configs);
    }
  }

  /** The parameters of one order, as they stand. */
  function OfOrder(params: seq<Member>, order: int, configs: ConfigMap): seq<Member> {
    if params == [] then []
    else (if OrderOf(params[0], configs) == order then [params[0]] else []) + OfOrder(params[1..], order, configs)
  }

  lemma {:induction false} OfOrderSnoc(params: seq<Member>, m: Member, order: int, configs: ConfigMap)
    ensures OfOrder(params + [m], order, configs)
         == OfOrder(params, order, configs) + if OrderOf(m, configs) == order then [m] else []
    decreases params
  {
    if params != [] {
      assert (params + [m])[1..] == params[1..] + [m];
      OfOrderSnoc(params[1..], m, order, configs);
    }
  }

  lemma {:induction false} NoneOfOrder(params: seq<Member>, order: int, configs: ConfigMap)
    requires forall i :: 0 <= i < |params| ==> OrderOf(params[i], configs) > order
    ensures OfOrder(params, order, configs) == []
    decreases params
  {
    if params != [] { NoneOfOrder(params[1..], order, configs); }
  }

  lemma {:induction false} InsertKeepsOrder(sorted: seq<Member>, m: Member, configs: ConfigMap)
    requires InOrder(sorted, configs)
    ensures InOrder(InsertByOrder(sorted, m, configs), configs)
    ensures forall x :: x in InsertByOrder(sorted, m, configs) ==> x == m || x in sorted
    decreases sorted
  {
    hide OrderOf;
    if sorted != [] && OrderOf(m, configs) >= OrderOf(sorted[0], configs) {
      var rest := InsertByOrder(sorted[1..], m, configs);
      InsertKeepsOrder(sorted[1..], m, configs);
      forall i | 0 <= i < |rest| ensures OrderOf(sorted[0], configs) <= OrderOf(rest[i], configs) {
        assert rest[i] in rest;
      }
    }
  }

  lemma OfOrderCons(m: Member, rest: seq<Member>, order: int, configs: ConfigMap)
    ensures OfOrder([m] + rest, order, configs)
         == (if OrderOf(m, configs) == order then [m] else []) + OfOrder(rest, order, configs)
  {
    assert ([m] + rest)[1..] == rest;
  }

  lemma {:induction false} InsertKeepsPlaces(sorted: seq<Member>, m: Member, order: int, configs: ConfigMap)
    requires InOrder(sorted, configs)
    ensures OfOrder(InsertByOrder(sorted, m, configs), order, configs)
         == OfOrder(sorted, order, configs) + if OrderOf(m, configs) == order then [m] else []
    decreases sorted
  {
    hide OrderOf, OfOrder;
    if sorted == [] || OrderOf(m, configs) < OrderOf(sorted[0], configs) {
      OfOrderCons(m, sorted, order, configs);
      if OrderOf(m, configs) == order { NoneOfOrder(sorted, order, configs); }
      assert [m] + sorted == InsertByOrder(sorted, m, configs);
    } else {
      var first, rest := sorted[0], sorted[1..];
      assert sorted == [first] + rest;
      InsertKeepsPlaces(rest, m, order, configs);
      OfOrderCons(first, rest, order, configs);
      OfOrderCons(first, InsertByOrder(rest, m, configs), order, configs);
    }
  }

  /** The display order is sorted. */
  lemma {:induction false} OrderSorts(params: seq<Member>, configs: ConfigMap)
    ensures InOrder(OrderParameters(params, configs), configs)
    decreases params
  {
    hide InsertByOrder, OrderOf;
    if params != [] {
      var init, last := params[..|params| - 1], params[|params| - 1];
      OrderSorts(init, configs);
      InsertKeepsOrder(OrderParameters(init, configs), last, configs);
    }
  }

  /** The parameters of one order stay as they came, so nothing is lost either. */
  lemma {:induction false} OrderIsStable(params: seq<Member>, order: int, configs: ConfigMap)
    ensures OfOrder(OrderParameters(params, configs), order, configs) == OfOrder(params, order, configs)
    decreases params
  {
    hide OfOrder, InsertByOrder, InOrder, OrderOf;
    if params != [] {
      var init, last := params[..|params| - 1], params[|params| - 1];
      OrderIsStable(init, order, configs);
      OrderSorts(init, configs);
      InsertKeepsPlaces(OrderParameters(init, configs), last, order, configs);
      assert params == init + [last];
      OfOrderSnoc(init, last, order, configs);
    }
  }
}
