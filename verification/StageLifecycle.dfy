/**
 The stages of one streamed answer: opened by the sink, closed by it, or handed to the accumulator
 for the tool that will run. A stage is a number, in the order of opening; the outcome of every call
 into the UI library is part of the delta that makes it.
 */
module StageLifecycle {
  import opened Wrappers

  type Stage = nat

  datatype Status = Completed | Failed

  datatype Close = Close(stage: Stage, status: Status)

  /** `_StreamingToolStageState`; the presenter's own work is `ArgumentPresenter`. */
  datatype ToolStage = ToolStage(stage: Stage, nameSet: bool, functionName: Option<string>, hasPresenter: bool)

  /** A tool-call delta: what it carries, and which of the calls it leads to raise. */
  datatype ToolDelta = ToolDelta(
    index: int,
    id: Option<string>,
    name: Option<string>,
    hasArguments: bool,
    opens: bool,
    nameRaises: bool,
    presentationRaises: bool,
    feedRaises: bool)

  /** A stage entry of a delta's custom content. */
  datatype StageEntry = StageEntry(
    index: int,
    named: bool,
    opens: bool,
    contentRaises: bool,
    status: Option<Status>)

  datatype Delta = Delta(
    entries: seq<StageEntry>,
    attachmentRaises: bool,
    hasContent: bool,
    contentRaises: bool,
    toolCalls: seq<ToolDelta>,
    laterSinkRaises: bool)

  // --- who owns a stage ---------------------------------------------------

  /** Where an opened stage is: tracked by the sink, handed to close, adopted, or lost. */
  datatype Place =
    | Reasoning(index: int)
    | Tool(index: int)
    | Closed(at: nat)
    | Adopted(id: string)
    | Lost

  type Places = map<Stage, Place>

  /** `place` inverts the four collections, so every opened stage is in exactly one of them or lost. */
  ghost predicate Owned(place: Places, created: nat, reasoning: map<int, Stage>, tools: map<int, ToolStage>,
                        closes: seq<Close>, adopted: map<string, Stage>)
  {
    && (forall s :: s in place <==> 0 <= s < created)
    && (forall i :: i in reasoning ==> reasoning[i] in place && place[reasoning[i]] == Reasoning(i))
    && (forall i :: i in tools ==> tools[i].stage in place && place[tools[i].stage] == Tool(i))
    && (forall k :: 0 <= k < |closes| ==> closes[k].stage in place && place[closes[k].stage] == Closed(k))
    && (forall id :: id in adopted ==> adopted[id] in place && place[adopted[id]] == Adopted(id))
    && (forall s :: s in place ==> Holds(s, place[s], reasoning, tools, closes, adopted))
  }

  predicate Holds(s: Stage, p: Place, reasoning: map<int, Stage>, tools: map<int, ToolStage>,
                  closes: seq<Close>, adopted: map<string, Stage>)
  {
    match p
    case Reasoning(i) => i in reasoning && reasoning[i] == s
    case Tool(i) => i in tools && tools[i].stage == s
    case Closed(k) => k < |closes| && closes[k].stage == s
    case Adopted(id) => id in adopted && adopted[id] == s
    case Lost => true
  }

  ghost function LostStages(place: Places): set<Stage> {
    set s | s in place && place[s] == Lost
  }

  /** A stage is closed at most once, adopted under at most one id, never both, and, unless lost, ends up one of these. */
  lemma OwnedOnce(place: Places, created: nat, closes: seq<Close>, adopted: map<string, Stage>, s: Stage)
    requires Owned(place, created, map[], map[], closes, adopted)
    requires s < created
    ensures forall j, k :: 0 <= j < k < |closes| && closes[j].stage == s ==> closes[k].stage != s
    ensures forall a, b :: a in adopted && b in adopted && adopted[a] == s && adopted[b] == s ==> a == b
    ensures !((exists k :: 0 <= k < |closes| && closes[k].stage == s) && (exists id :: id in adopted && adopted[id] == s))
    ensures s !in LostStages(place) ==>
            (exists k :: 0 <= k < |closes| && closes[k].stage == s) || (exists id :: id in adopted && adopted[id] == s)
  {
    assert Holds(s, place[s], map[], map[], closes, adopted);
  }

  lemma MoveAdoptedToClosed(place: Places, created: nat, reasoning: map<int, Stage>, tools: map<int, ToolStage>,
                            closes: seq<Close>, adopted: map<string, Stage>, id: string, status: Status)
    requires Owned(place, created, reasoning, tools, closes, adopted) && id in adopted
    ensures var place' := place[adopted[id] := Closed(|closes|)];
      && Owned(place', created, reasoning, tools, closes + [Close(adopted[id], status)], adopted - {id})
      && LostStages(place') == LostStages(place)
  {
    var place', closes', adopted' := place[adopted[id] := Closed(|closes|)], closes + [Close(adopted[id], status)], adopted - {id};
    forall s | s in place' ensures Holds(s, place'[s], reasoning, tools, closes', adopted') {
      assert Holds(s, place[s], reasoning, tools, closes, adopted);
    }
  }

  lemma MoveToolToClosed(place: Places, created: nat, reasoning: map<int, Stage>, tools: map<int, ToolStage>,
                         closes: seq<Close>, adopted: map<string, Stage>, index: int, status: Status)
    requires Owned(place, created, reasoning, tools, closes, adopted) && index in tools
    ensures var place' := place[tools[index].stage := Closed(|closes|)];
      && Owned(place', created, reasoning, tools - {index}, closes + [Close(tools[index].stage, status)], adopted)
      && LostStages(place') == LostStages(place)
  {
    var stage := tools[index].stage;
    var place', closes', tools' := place[stage := Closed(|closes|)], closes + [Close(stage, status)], tools - {index};
    forall s | s in place' ensures Holds(s, place'[s], reasoning, tools', closes', adopted) {
      assert Holds(s, place[s], reasoning, tools, closes, adopted);
    }
  }

  lemma MoveReasoningToClosed(place: Places, created: nat, reasoning: map<int, Stage>, tools: map<int, ToolStage>,
                              closes: seq<Close>, adopted: map<string, Stage>, index: int, status: Status)
    requires Owned(place, created, reasoning, tools, closes, adopted) && index in reasoning
    ensures var place' := place[reasoning[index] := Closed(|closes|)];
      && Owned(place', created, reasoning - {index}, tools, closes + [Close(reasoning[index], status)], adopted)
      && LostStages(place') == LostStages(place)
  {
    var stage := reasoning[index];
    var place', closes', reasoning' := place[stage := Closed(|closes|)], closes + [Close(stage, status)], reasoning - {index};
    forall s | s in place' ensures Holds(s, place'[s], reasoning', tools, closes', adopted) {
      assert Holds(s, place[s], reasoning, tools, closes, adopted);
    }
  }

  /** A stage is opened and not yet entered anywhere. */
  lemma OpenedLost(place: Places, created: nat, reasoning: map<int, Stage>, tools: map<int, ToolStage>,
                   closes: seq<Close>, adopted: map<string, Stage>)
    requires Owned(place, created, reasoning, tools, closes, adopted)
    ensures Owned(place[created := Lost], created + 1, reasoning, tools, closes, adopted)
    ensures LostStages(place[created := Lost]) == LostStages(place) + {created}
  {
    forall s | s in place ensures Holds(s, place[s], reasoning, tools, closes, adopted) {}
  }

  lemma EnterTool(place: Places, created: nat, reasoning: map<int, Stage>, tools: map<int, ToolStage>,
                  closes: seq<Close>, adopted: map<string, Stage>, index: int, state: ToolStage)
    requires Owned(place, created, reasoning, tools, closes, adopted)
    requires index !in tools && state.stage in place && place[state.stage] == Lost
    ensures Owned(place[state.stage := Tool(index)], created, reasoning, tools[index := state], closes, adopted)
    ensures LostStages(place[state.stage := Tool(index)]) == LostStages(place) - {state.stage}
  {
    var tools' := tools[index := state];
    forall s | s in place && s != state.stage ensures Holds(s, place[s], reasoning, tools', closes, adopted) {
      assert Holds(s, place[s], reasoning, tools, closes, adopted);
    }
  }

  lemma EnterReasoning(place: Places, created: nat, reasoning: map<int, Stage>, tools: map<int, ToolStage>,
                       closes: seq<Close>, adopted: map<string, Stage>, index: int)
    requires Owned(place, created, reasoning, tools, closes, adopted) && index !in reasoning
    ensures Owned(place[created := Reasoning(index)], created + 1, reasoning[index := created], tools, closes, adopted)
    ensures LostStages(place[created := Reasoning(index)]) == LostStages(place)
  {
    var reasoning' := reasoning[index := created];
    forall s | s in place ensures Holds(s, place[s], reasoning', tools, closes, adopted) {
      assert Holds(s, place[s], reasoning, tools, closes, adopted);
    }
  }

  /** The same stages under other presenter states. */
  lemma SameToolStages(place: Places, created: nat, reasoning: map<int, Stage>, tools: map<int, ToolStage>,
                       closes: seq<Close>, adopted: map<string, Stage>, index: int, state: ToolStage)
    requires Owned(place, created, reasoning, tools, closes, adopted)
    requires index in tools && state.stage == tools[index].stage
    ensures Owned(place, created, reasoning, tools[index := state], closes, adopted)
  {
    var tools' := tools[index := state];
    forall s | s in place ensures Holds(s, place[s], reasoning, tools', closes, adopted) {
      assert Holds(s, place[s], reasoning, tools, closes, adopted);
    }
  }

  function PlacesAfterAdopting(place: Places, adopted: map<string, Stage>, id: string, stage: Stage): Places {
    (if id in adopted then place[adopted[id] := Lost] else place)[stage := Adopted(id)]
  }

  lemma MoveToolToAdopted(place: Places, created: nat, reasoning: map<int, Stage>, tools: map<int, ToolStage>,
                          closes: seq<Close>, adopted: map<string, Stage>, index: int, id: string)
    requires Owned(place, created, reasoning, tools, closes, adopted) && index in tools
    ensures var stage := tools[index].stage;
      var place' := PlacesAfterAdopting(place, adopted, id, stage);
      && Owned(place', created, reasoning, tools - {index}, closes, adopted[id := stage])
      && LostStages(place') == LostStages(place) + (if id in adopted then {adopted[id]} else {})
      && (id in adopted ==> adopted[id] !in LostStages(place))
  {
    var stage := tools[index].stage;
    var place', tools', adopted' := PlacesAfterAdopting(place, adopted, id, stage), tools - {index}, adopted[id := stage];
    forall s | s in place' ensures Holds(s, place'[s], reasoning, tools', closes, adopted') {
      assert Holds(s, place[s], reasoning, tools, closes, adopted);
    }
  }

  // --- the UI library's side ----------------------------------------------

  /** The stages opened so far and the calls of `close`, whether they raised or not. */
  class StageBoard {
    var created: nat
    var closes: seq<Close>
    ghost var place: Places

    constructor ()
      ensures created == 0 && closes == [] && place == map[]
    {
      created, closes, place := 0, [], map[];
    }
  }

  // --- the accumulator ----------------------------------------------------

  /** The ids by tool-call index after one more delta: id parts are concatenated, and absent while none came. */
  function AppendId(ids: map<int, Option<string>>, d: ToolDelta): map<int, Option<string>> {
    var before := IdAt(d.index, ids);
    ids[d.index := if d.id.None? then before else if before.None? then d.id else Some(before.value + d.id.value)]
  }

  function AppendIds(ids: map<int, Option<string>>, ds: seq<ToolDelta>): map<int, Option<string>> {
    if ds == [] then ids else AppendId(AppendIds(ids, ds[..|ds| - 1]), ds[|ds| - 1])
  }

  /** The ids after a whole stream. */
  function IdsAfter(ids: map<int, Option<string>>, deltas: seq<Delta>): map<int, Option<string>> {
    if deltas == [] then ids else AppendIds(IdsAfter(ids, deltas[..|deltas| - 1]), deltas[|deltas| - 1].toolCalls)
  }

  // --- the ids are the parts joined ---

  /** The id parts some deltas bring for an index, in order. */
  function IdParts(ds: seq<ToolDelta>, index: int): seq<string> {
    if ds == [] then []
    else (if ds[0].index == index && ds[0].id.Some? then [ds[0].id.value] else []) + IdParts(ds[1..], index)
  }

  function Joined(parts: seq<string>): string {
    if parts == [] then "" else parts[0] + Joined(parts[1..])
  }

  function AllToolCalls(deltas: seq<Delta>): seq<ToolDelta> {
    if deltas == [] then [] else deltas[0].toolCalls + AllToolCalls(deltas[1..])
  }

  lemma {:induction false} IdPartsOfConcat(a: seq<ToolDelta>, b: seq<ToolDelta>, index: int)
    ensures IdParts(a + b, index) == IdParts(a, index) + IdParts(b, index)
    decreases a
  {
    if a == [] {
      assert a + b == b;
    } else {
      assert (a + b)[1..] == a[1..] + b;
      IdPartsOfConcat(a[1..], b, index);
    }
  }

  lemma {:induction false} JoinedSnoc(parts: seq<string>, last: string)
    ensures Joined(parts + [last]) == Joined(parts) + last
    decreases parts
  {
    if parts == [] {
      assert parts + [last] == [last] && Joined([]) == "" && last + "" == last;
    } else {
      assert (parts + [last])[1..] == parts[1..] + [last];
      JoinedSnoc(parts[1..], last);
    }
  }

  lemma {:induction false} DeltaIdsAreJoined(ds: seq<ToolDelta>, index: int)
    ensures IdAt(index, AppendIds(map[], ds)) ==
            if IdParts(ds, index) == [] then None else Some(Joined(IdParts(ds, index)))
    decreases ds
  {
    if ds != [] {
      var init, last := ds[..|ds| - 1], ds[|ds| - 1];
      DeltaIdsAreJoined(init, index);
      assert init + [last] == ds;
      IdPartsOfConcat(init, [last], index);
      assert [last][1..] == [];
      if last.index == index && last.id.Some? {
        assert IdParts([last], index) == [last.id.value];
        JoinedSnoc(IdParts(init, index), last.id.value);
        if IdParts(init, index) == [] { assert Joined([]) + last.id.value == last.id.value; }
      } else {
        assert IdParts([last], index) == [];
        assert IdParts(ds, index) == IdParts(init, index);
        assert IdAt(index, AppendIds(map[], ds)) == IdAt(index, AppendIds(map[], init));
      }
    }
  }

  lemma {:induction false} AppendIdsTwice(ids: map<int, Option<string>>, a: seq<ToolDelta>, b: seq<ToolDelta>)
    ensures AppendIds(AppendIds(ids, a), b) == AppendIds(ids, a + b)
    decreases b
  {
    hide AppendId;
    if b == [] {
      assert a + b == a;
    } else {
      AppendIdsTwice(ids, a, b[..|b| - 1]);
      assert (a + b)[..|a + b| - 1] == a + b[..|b| - 1];
    }
  }

  lemma {:induction false} AllToolCallsSnoc(deltas: seq<Delta>)
    requires deltas != []
    ensures AllToolCalls(deltas) == AllToolCalls(deltas[..|deltas| - 1]) + deltas[|deltas| - 1].toolCalls
    decreases deltas
  {
    if |deltas| == 1 {
      assert deltas[1..] == [];
      assert deltas[0].toolCalls + [] == [] + deltas[0].toolCalls;
    } else {
      AllToolCallsSnoc(deltas[1..]);
      assert deltas[1..][..|deltas| - 2] == deltas[..|deltas| - 1][1..];
      assert deltas[..|deltas| - 1][0] == deltas[0];
    }
  }

  lemma {:induction false} StreamIdsAreOneAppend(deltas: seq<Delta>)
    ensures IdsAfter(map[], deltas) == AppendIds(map[], AllToolCalls(deltas))
    decreases deltas
  {
    hide AppendId;
    if deltas != [] {
      StreamIdsAreOneAppend(deltas[..|deltas| - 1]);
      AllToolCallsSnoc(deltas);
      AppendIdsTwice(map[], AllToolCalls(deltas[..|deltas| - 1]), deltas[|deltas| - 1].toolCalls);
    }
  }

  /** After a whole stream a call's id is all the id parts of its index joined in order, and absent if none came. */
  lemma IdsAreJoined(deltas: seq<Delta>, index: int)
    ensures var parts := IdParts(AllToolCalls(deltas), index);
      IdAt(index, IdsAfter(map[], deltas)) == if parts == [] then None else Some(Joined(parts))
  {
    StreamIdsAreOneAppend(deltas);
    DeltaIdsAreJoined(AllToolCalls(deltas), index);
  }

  class ChatStreamAccumulator {
    const board: StageBoard
    /** The ids accumulated so far, by tool-call index. */
    var toolCallIds: map<int, Option<string>>
    var adopted: map<string, Stage>

    constructor (board: StageBoard)
      ensures this.board == board && toolCallIds == map[] && adopted == map[]
    {
      this.board := board;
      toolCallIds, adopted := map[], map[];
    }

    method AppendToolCallDelta(d: ToolDelta)
      modifies this`toolCallIds
      ensures toolCallIds == AppendId(old(toolCallIds), d)
    {
      if d.index !in toolCallIds { toolCallIds := toolCallIds[d.index := None]; }
      var current := toolCallIds[d.index];
      if d.id.Some? {
        toolCallIds := toolCallIds[d.index := if current.None? then d.id else Some(current.value + d.id.value)];
      }
    }

    /** Close what no tool took over; each adopted stage is handed to close once. */
    method CloseRemainingAdoptedToolStages(status: Status)
      requires Owned(board.place, board.created, map[], map[], board.closes, adopted)
      modifies this`adopted, board
      ensures adopted == map[] && board.created == old(board.created)
      ensures Owned(board.place, board.created, map[], map[], board.closes, adopted)
      ensures LostStages(board.place) == old(LostStages(board.place))
      ensures old(board.closes) <= board.closes
      ensures forall k :: |old(board.closes)| <= k < |board.closes| ==> board.closes[k].status == status
    {
      hide Owned, LostStages;
      var todo := adopted.Keys;
      while todo != {}
        invariant todo == adopted.Keys
        invariant Owned(board.place, board.created, map[], map[], board.closes, adopted)
        invariant board.created == old(board.created) && LostStages(board.place) == old(LostStages(board.place))
        invariant old(board.closes) <= board.closes
        invariant forall k :: |old(board.closes)| <= k < |board.closes| ==> board.closes[k].status == status
        decreases todo
      {
        var id :| id in todo;
        CloseAdoptedToolStage(id, status);
        todo := todo - {id};
      }
    }

    method CloseAdoptedToolStage(id: string, status: Status)
      requires Owned(board.place, board.created, map[], map[], board.closes, adopted) && id in adopted
      modifies this`adopted, board
      ensures adopted == old(adopted) - {id} && board.created == old(board.created)
      ensures board.closes == old(board.closes) + [Close(old(adopted)[id], status)]
      ensures Owned(board.place, board.created, map[], map[], board.closes, adopted)
      ensures LostStages(board.place) == old(LostStages(board.place))
    {
      var stage := adopted[id];
      MoveAdoptedToClosed(board.place, board.created, map[], map[], board.closes, adopted, id, status);
      hide Owned;
      board.place := board.place[stage := Closed(|board.closes|)];
      board.closes := board.closes + [Close(stage, status)];
      adopted := adopted - {id};
    }
  }

  // --- the sink -----------------------------------------------------------

  class ChoiceUiSink {
    const accumulator: ChatStreamAccumulator
    const board: StageBoard
    /** Whether there is a destination to draw on. */
    const active: bool
    const streamContent: bool
    const propagateStages: bool
    /** The tools whose info stage is suppressed, and those that present their arguments. */
    const suppressedNames: set<string>
    const presentedNames: set<string>
    var reasoning: map<int, Stage>
    var tools: map<int, ToolStage>
    var suppressed: set<int>

    constructor (accumulator: ChatStreamAccumulator, active: bool, streamContent: bool, propagateStages: bool,
                 suppressedNames: set<string>, presentedNames: set<string>)
      requires accumulator.board.created == 0 && accumulator.board.closes == [] && accumulator.board.place == map[]
      requires accumulator.adopted == map[]
      ensures this.accumulator == accumulator && this.board == accumulator.board
      ensures Valid() && reasoning == map[] && tools == map[] && suppressed == {}
      ensures this.suppressedNames == suppressedNames && this.presentedNames == presentedNames
      ensures this.active == active && this.streamContent == streamContent && this.propagateStages == propagateStages
    {
      this.accumulator, this.board := accumulator, accumulator.board;
      this.active, this.streamContent, this.propagateStages := active, streamContent, propagateStages;
      this.suppressedNames, this.presentedNames := suppressedNames, presentedNames;
      reasoning, tools, suppressed := map[], map[], {};
    }

    ghost predicate Valid()
      reads this, accumulator, board
    {
      && accumulator.board == board
      && Owned(board.place, board.created, reasoning, tools, board.closes, accumulator.adopted)
      && (forall i :: i in suppressed ==> i !in tools)
      && (forall i :: i in tools && tools[i].functionName.Some? ==> tools[i].functionName.value !in suppressedNames)
    }

    /** What no method below the publishing step touches. */
    twostate predicate Keeps()
      reads this, accumulator, board
    {
      && accumulator.adopted == old(accumulator.adopted)
      && old(board.created) <= board.created
      && old(board.closes) <= board.closes
      && old(suppressed) <= suppressed
    }

    // --- reasoning stages ---

    method CloseStreamingStageAtIndex(index: int, status: Status)
      requires Valid()
      modifies this`reasoning, board
      ensures Valid() && Keeps() && LostStages(board.place) == old(LostStages(board.place))
      ensures reasoning == old(reasoning) - {index} && board.created == old(board.created)
      ensures board.closes ==
              old(board.closes) + if index in old(reasoning) then [Close(old(reasoning)[index], status)] else []
    {
      if index !in reasoning { return; }
      var stage := reasoning[index];
      MoveReasoningToClosed(board.place, board.created, reasoning, tools, board.closes, accumulator.adopted, index, status);
      hide Owned;
      reasoning := reasoning - {index};
      board.place := board.place[stage := Closed(|board.closes|)];
      board.closes := board.closes + [Close(stage, status)];
    }

    method CloseAllStreamingStages(status: Status)
      requires Valid()
      modifies this`reasoning, board
      ensures Valid() && Keeps() && LostStages(board.place) == old(LostStages(board.place))
      ensures reasoning == map[] && board.created == old(board.created)
      ensures forall k :: |old(board.closes)| <= k < |board.closes| ==> board.closes[k].status == status
    {
      var todo := reasoning.Keys;
      while todo != {}
        invariant todo == reasoning.Keys
        invariant Valid() && Keeps() && LostStages(board.place) == old(LostStages(board.place))
        invariant board.created == old(board.created)
        invariant forall k :: |old(board.closes)| <= k < |board.closes| ==> board.closes[k].status == status
        decreases todo
      {
        SomeIndex(todo);
        var index :| index in todo;
        CloseStreamingStageAtIndex(index, status);
        todo := todo - {index};
      }
    }

    /** Returns whether the call came back; otherwise it raised `ChatStreamWriteError`. */
    method StreamStageDelta(e: StageEntry) returns (ok: bool)
      requires Valid()
      modifies this`reasoning, board
      ensures Valid() && Keeps() && LostStages(board.place) == old(LostStages(board.place))
      ensures var opens := e.index !in old(reasoning) && e.named && e.opens;
        var stage := if e.index in old(reasoning) then old(reasoning)[e.index] else old(board.created);
        var shown := e.index in old(reasoning) || opens;
        && board.created == old(board.created) + (if opens then 1 else 0)
        && (ok <==> !(shown && e.contentRaises))
        && if shown && ok && e.status.Some? then
             reasoning == old(reasoning) - {e.index} && board.closes == old(board.closes) + [Close(stage, e.status.value)]
           else
             reasoning == (if shown then old(reasoning)[e.index := stage] else old(reasoning)) && board.closes == old(board.closes)
    {
      if e.index !in reasoning {
        if !e.named || !e.opens { return true; }
        var stage := board.created;
        EnterReasoning(board.place, board.created, reasoning, tools, board.closes, accumulator.adopted, e.index);
        board.created := board.created + 1;
        reasoning := reasoning[e.index := stage];
        board.place := board.place[stage := Reasoning(e.index)];
      }
      if e.contentRaises { return false; }
      if e.status.Some? { CloseStreamingStageAtIndex(e.index, e.status.value); }
      ok := true;
    }

    // --- tool stages ---

    predicate Suppresses(name: Option<string>)
    {
      name.Some? && name.value in suppressedNames
    }

    /** The presenter is built on the first known name; building or feeding what was buffered may raise. */
    method EnsurePresenter(state: ToolStage, presentationRaises: bool) returns (ok: bool, state': ToolStage)
      ensures ok <==> state.hasPresenter || state.functionName.None? || !presentationRaises
      ensures state' == if ok && state.functionName.Some? && state.functionName.value in presentedNames
                        then state.(hasPresenter := true) else state
    {
      if state.hasPresenter || state.functionName.None? { return true, state; }
      if presentationRaises { return false, state; }
      return true, state.(hasPresenter := state.functionName.value in presentedNames);
    }

    /** A first delta for `d.index`: the stage is opened, and tracked only if building its presentation did not raise. */
    method OpenNewToolStage(d: ToolDelta) returns (ok: bool)
      requires Valid() && d.index !in tools && d.index !in suppressed
      modifies this`tools, this`suppressed, board
      ensures Valid() && Keeps() && board.closes == old(board.closes)
      ensures var suppresses, opens := Suppresses(d.name), !Suppresses(d.name) && d.opens;
        && suppressed == (if suppresses then old(suppressed) + {d.index} else old(suppressed))
        && board.created == old(board.created) + (if opens then 1 else 0)
        && (ok <==> !(opens && d.name.Some? && d.presentationRaises))
        && (d.index in tools <==> opens && ok)
        && (d.index in tools ==>
              tools[d.index] == ToolStage(old(board.created), d.name.Some?, d.name, d.name.Some? && d.name.value in presentedNames))
        && tools - {d.index} == old(tools)
        && LostStages(board.place) == old(LostStages(board.place)) + (if ok then {} else {old(board.created)})
    {
      if Suppresses(d.name) {
        suppressed := suppressed + {d.index};
        return true;
      }
      if !d.opens { return true; }
      var stage := board.created;
      OpenedLost(board.place, board.created, reasoning, tools, board.closes, accumulator.adopted);
      assert stage !in LostStages(board.place);
      board.created := board.created + 1;
      board.place := board.place[stage := Lost];
      var state := ToolStage(stage, d.name.Some?, d.name, false);
      ok, state := EnsurePresenter(state, d.presentationRaises);
      if !ok { return; }
      EnterTool(board.place, board.created, reasoning, tools, board.closes, accumulator.adopted, d.index, state);
      hide Owned;
      tools := tools[d.index := state];
      board.place := board.place[stage := Tool(d.index)];
    }

    method CloseToolStage(index: int, status: Status)
      requires Valid() && index in tools
      modifies this`tools, board
      ensures Valid() && Keeps() && LostStages(board.place) == old(LostStages(board.place))
      ensures tools == old(tools) - {index} && board.created == old(board.created)
      ensures board.closes == old(board.closes) + [Close(old(tools)[index].stage, status)]
    {
      var stage := tools[index].stage;
      MoveToolToClosed(board.place, board.created, reasoning, tools, board.closes, accumulator.adopted, index, status);
      hide Owned;
      tools := tools - {index};
      board.place := board.place[stage := Closed(|board.closes|)];
      board.closes := board.closes + [Close(stage, status)];
    }

    /** The name came late: a suppressed tool's stage is closed and forgotten, any other gets its presenter. */
    method ApplyLateFunctionName(d: ToolDelta) returns (ok: bool)
      requires Valid() && d.index in tools && d.index !in suppressed && d.name.Some?
      modifies this`tools, this`suppressed, board
      ensures Valid() && Keeps() && LostStages(board.place) == old(LostStages(board.place)) && board.created == old(board.created)
      ensures if Suppresses(d.name) then
          && ok && suppressed == old(suppressed) + {d.index} && tools == old(tools) - {d.index}
          && board.closes == old(board.closes) + [Close(old(tools)[d.index].stage, Completed)]
        else
          && suppressed == old(suppressed) && board.closes == old(board.closes)
          && tools.Keys == old(tools.Keys) && tools - {d.index} == old(tools) - {d.index}
          && (ok <==> old(tools)[d.index].hasPresenter || !d.presentationRaises)
          && tools[d.index] == ToolStage(old(tools)[d.index].stage, old(tools)[d.index].nameSet || !d.nameRaises, d.name,
                                         old(tools)[d.index].hasPresenter || (ok && d.name.value in presentedNames))
    {
      if Suppresses(d.name) {
        CloseToolStage(d.index, Completed);
        suppressed := suppressed + {d.index};
        return true;
      }
      var state := tools[d.index];
      if !d.nameRaises { state := state.(nameSet := true); }
      state := state.(functionName := d.name);
      ok, state := EnsurePresenter(state, d.presentationRaises);
      SameToolStages(board.place, board.created, reasoning, tools, board.closes, accumulator.adopted, d.index, state);
      hide Owned;
      tools := tools[d.index := state];
    }

    /** This delta, when its index is new, opens a stage and then raises while building its presentation. */
    predicate OpeningRaises(d: ToolDelta)
    {
      !Suppresses(d.name) && d.opens && d.name.Some? && d.presentationRaises
    }

    /** One tool-call delta; a stage is lost exactly when building the presentation of a stage just opened raises. */
    method StreamToolCallDelta(d: ToolDelta) returns (ok: bool)
      requires Valid()
      modifies this`tools, this`suppressed, board
      ensures Valid() && Keeps()
      ensures old(board.created) !in old(LostStages(board.place))
      ensures LostStages(board.place) == old(LostStages(board.place)) +
              (if old(d.index !in suppressed && d.index !in tools) && OpeningRaises(d) then {old(board.created)} else {})
      ensures var isNew := old(d.index !in suppressed && d.index !in tools);
        var late := d.index in old(tools) && !old(tools)[d.index].nameSet && d.name.Some? && !Suppresses(d.name);
        ok <==> && !(isNew && OpeningRaises(d))
                && !(late && !old(tools)[d.index].hasPresenter && d.presentationRaises)
                && !(d.index in tools && tools[d.index].hasPresenter && d.hasArguments && d.feedRaises)
      ensures tools - {d.index} == old(tools) - {d.index}
      ensures suppressed ==
              if Suppresses(d.name) && old(d.index !in suppressed && (d.index in tools ==> !tools[d.index].nameSet))
              then old(suppressed) + {d.index} else old(suppressed)
      ensures d.index in old(tools) && (old(tools)[d.index].nameSet || d.name.None?) ==> tools == old(tools)
      ensures d.index !in old(tools) && d.index in tools ==>
                tools[d.index] == ToolStage(old(board.created), d.name.Some?, d.name, d.name.Some? && d.name.value in presentedNames)
      ensures board.created == old(board.created)
                + if old(d.index !in suppressed && d.index !in tools) && !Suppresses(d.name) && d.opens then 1 else 0
      ensures d.index in old(suppressed) ==> ok && suppressed == old(suppressed) && board.created == old(board.created) && board.closes == old(board.closes)
      ensures d.index !in old(suppressed) && d.index !in old(tools) ==>
                board.closes == old(board.closes) &&
                (d.index in tools <==> !Suppresses(d.name) && d.opens && !OpeningRaises(d))
      ensures d.index in old(tools) && d.index !in tools ==>
                Suppresses(d.name) && d.index in suppressed &&
                board.closes == old(board.closes) + [Close(old(tools)[d.index].stage, Completed)]
      ensures d.index in old(tools) && d.index in tools ==>
                tools[d.index].stage == old(tools)[d.index].stage && board.closes == old(board.closes)
    {
      if d.index in suppressed { return true; }
      if d.index !in tools {
        ok := OpenNewToolStage(d);
        if !ok || d.index !in tools { return; }
      } else if !tools[d.index].nameSet && d.name.Some? {
        ok := ApplyLateFunctionName(d);
        if !ok || d.index !in tools { return; }
      }
      ok := !(d.hasArguments && tools[d.index].hasPresenter && d.feedRaises);
    }

    /** Hand the tool stages over, those without an id are closed. */
    method PublishAdoptedToolStages()
      requires Valid() && accumulator.adopted == map[]
      modifies this`tools, board, accumulator`adopted
      ensures Valid() && tools == map[] && board.created == old(board.created) && old(board.closes) <= board.closes
      ensures old(LostStages(board.place)) <= LostStages(board.place)
      ensures LostStages(board.place) == old(LostStages(board.place)) <==> DistinctIds(old(tools), accumulator.toolCallIds)
      ensures forall i :: i in old(tools) && IdAt(i, accumulator.toolCallIds).Some? ==>
                IdAt(i, accumulator.toolCallIds).value in accumulator.adopted
      ensures forall i :: i in old(tools) && IdAt(i, accumulator.toolCallIds).None? ==>
                Close(old(tools)[i].stage, Completed) in board.closes
      ensures DistinctIds(old(tools), accumulator.toolCallIds) ==>
                forall i :: i in old(tools) && IdAt(i, accumulator.toolCallIds).Some? ==>
                  accumulator.adopted[IdAt(i, accumulator.toolCallIds).value] == old(tools)[i].stage
      ensures forall k :: |old(board.closes)| <= k < |board.closes| ==> board.closes[k].status == Completed
    {
      hide Owned, LostStages;
      var ids := accumulator.toolCallIds;
      ghost var done: set<int> := {};
      var todo := tools.Keys;
      while todo != {}
        invariant todo == tools.Keys && done + todo == old(tools).Keys && done !! todo
        invariant forall i :: i in tools ==> tools[i] == old(tools)[i]
        invariant Valid() && board.created == old(board.created) && old(board.closes) <= board.closes
        invariant LostStages(board.place) >= old(LostStages(board.place))
        invariant LostStages(board.place) == old(LostStages(board.place)) <==> DistinctAmong(done, ids)
        invariant forall id :: id in accumulator.adopted <==> exists i :: i in done && IdAt(i, ids) == Some(id)
        invariant forall i :: i in done && IdAt(i, ids).None? ==> Close(old(tools)[i].stage, Completed) in board.closes
        invariant DistinctAmong(done, ids) ==>
                    forall i :: i in done && IdAt(i, ids).Some? ==> accumulator.adopted[IdAt(i, ids).value] == old(tools)[i].stage
        invariant forall k :: |old(board.closes)| <= k < |board.closes| ==> board.closes[k].status == Completed
        decreases todo
      {
        SomeIndex(todo);
        var index :| index in todo;
        var id := IdAt(index, ids);
        AddIndex(done, index, ids);
        if id.None? {
          CloseToolStage(index, Completed);
        } else {
          AdoptToolStage(index, id.value);
        }
        todo, done := todo - {index}, done + {index};
      }
    }

    /** `set_adopted_tool_stage`: whatever was adopted under the id before is lost. */
    method AdoptToolStage(index: int, id: string)
      requires Valid() && index in tools
      modifies this`tools, board, accumulator`adopted
      ensures Valid() && tools == old(tools) - {index} && board.created == old(board.created) && board.closes == old(board.closes)
      ensures accumulator.adopted == old(accumulator.adopted)[id := old(tools)[index].stage]
      ensures LostStages(board.place) ==
              old(LostStages(board.place)) + (if id in old(accumulator.adopted) then {old(accumulator.adopted)[id]} else {})
      ensures id in old(accumulator.adopted) ==> old(accumulator.adopted)[id] !in old(LostStages(board.place))
    {
      var stage := tools[index].stage;
      MoveToolToAdopted(board.place, board.created, reasoning, tools, board.closes, accumulator.adopted, index, id);
      hide Owned;
      board.place := PlacesAfterAdopting(board.place, accumulator.adopted, id, stage);
      accumulator.adopted := accumulator.adopted[id := stage];
      tools := tools - {index};
    }

    method CloseAllToolStages(status: Status)
      requires Valid()
      modifies this`tools, board
      ensures Valid() && Keeps() && LostStages(board.place) == old(LostStages(board.place))
      ensures tools == map[] && board.created == old(board.created)
      ensures forall k :: |old(board.closes)| <= k < |board.closes| ==> board.closes[k].status == status
    {
      var todo := tools.Keys;
      while todo != {}
        invariant todo == tools.Keys
        invariant Valid() && Keeps() && LostStages(board.place) == old(LostStages(board.place))
        invariant board.created == old(board.created)
        invariant forall k :: |old(board.closes)| <= k < |board.closes| ==> board.closes[k].status == status
        decreases todo
      {
        SomeIndex(todo);
        var index :| index in todo;
        CloseToolStage(index, status);
        todo := todo - {index};
      }
    }

    // --- the sink interface ---

    predicate Opens(e: StageEntry)
    {
      e.named && e.opens
    }

    ghost predicate SomeStarts(entries: seq<StageEntry>, index: int)
    {
      exists e :: e in entries && e.index == index && Opens(e)
    }

    ghost predicate SomeGives(entries: seq<StageEntry>, status: Status)
    {
      exists e :: e in entries && e.status == Some(status)
    }

    ghost predicate SomeEnds(entries: seq<StageEntry>, index: int)
    {
      exists e :: e in entries && e.index == index && e.status.Some?
    }

    /** The stage this entry has to open is there, or this or a later entry has ended it. */
    ghost predicate ShownOrEnded(entries: seq<StageEntry>, i: int)
      requires 0 <= i < |entries|
      reads this
    {
      entries[i].index in reasoning || SomeEnds(entries[i..], entries[i].index)
    }

    predicate EntryMayRaise(entries: seq<StageEntry>)
    {
      exists e :: e in entries && e.contentRaises
    }

    predicate CallMayRaise(ds: seq<ToolDelta>)
    {
      exists d :: d in ds && (d.presentationRaises || d.feedRaises)
    }

    /** Some call this delta leads to, on an active sink, is one that raises. */
    predicate MayRaise(d: Delta)
    {
      d.attachmentRaises || (d.hasContent && streamContent && d.contentRaises)
      || (propagateStages && EntryMayRaise(d.entries)) || CallMayRaise(d.toolCalls)
    }

    /** Stage entries of the custom content; `false` when a write to a stage raised. */
    method ApplyCustom(entries: seq<StageEntry>) returns (ok: bool)
      requires Valid()
      modifies this`reasoning, board
      ensures Valid() && Keeps() && LostStages(board.place) == old(LostStages(board.place))
      ensures !propagateStages ==> ok && reasoning == old(reasoning) && board.created == old(board.created) && board.closes == old(board.closes)
      ensures ok && propagateStages ==>
                forall i :: 0 <= i < |entries| && Opens(entries[i]) ==> ShownOrEnded(entries, i) && !entries[i].contentRaises
      ensures !ok ==> EntryMayRaise(entries)
      ensures forall i :: i in old(reasoning) ==>
                (i in reasoning && reasoning[i] == old(reasoning)[i]) || SomeEnds(entries, i)
      ensures forall i :: i in reasoning ==> i in old(reasoning) || SomeStarts(entries, i)
      ensures forall k :: |old(board.closes)| <= k < |board.closes| ==> SomeGives(entries, board.closes[k].status)
    {
      hide Owned, LostStages, SomeStarts, SomeGives, SomeEnds;
      if !propagateStages { return true; }
      for i := 0 to |entries|
        invariant Valid() && Keeps() && LostStages(board.place) == old(LostStages(board.place))
        invariant forall j :: 0 <= j < i && Opens(entries[j]) ==> ShownOrEnded(entries[..i], j) && !entries[j].contentRaises
        invariant forall j :: j in old(reasoning) ==>
                    (j in reasoning && reasoning[j] == old(reasoning)[j]) || SomeEnds(entries[..i], j)
        invariant forall j :: j in reasoning ==> j in old(reasoning) || SomeStarts(entries[..i], j)
        invariant forall k :: |old(board.closes)| <= k < |board.closes| ==> SomeGives(entries[..i], board.closes[k].status)
      {
        OneMoreEntry(entries, i, entries[..i], entries[..i + 1]);
        ok := StreamStageDelta(entries[i]);
        if !ok {
          assert entries[i] in entries;
          EntriesSoFar(entries, i + 1);
          return;
        }
      }
      assert entries[..|entries|] == entries;
      ok := true;
    }

    /** What some entry does up to one entry, and up to the next. */
    lemma OneMoreEntry(entries: seq<StageEntry>, i: nat, before: seq<StageEntry>, now: seq<StageEntry>)
      requires i < |entries| && before == entries[..i] && now == entries[..i + 1]
      ensures forall x :: SomeStarts(now, x) <==> SomeStarts(before, x) || (entries[i].index == x && Opens(entries[i]))
      ensures forall st :: SomeGives(now, st) <==> SomeGives(before, st) || entries[i].status == Some(st)
      ensures forall x :: SomeEnds(now, x) <==> SomeEnds(before, x) || (entries[i].index == x && entries[i].status.Some?)
      ensures forall j, x :: 0 <= j <= i ==>
                (SomeEnds(now[j..], x) <==> SomeEnds(before[j..], x) || (entries[i].index == x && entries[i].status.Some?))
    {
      WithEntry(before, entries[i]);
      assert now == before + [entries[i]];
      forall j, x | 0 <= j <= i
        ensures SomeEnds(now[j..], x) <==> SomeEnds(before[j..], x) || (entries[i].index == x && entries[i].status.Some?)
      {
        WithEntry(before[j..], entries[i]);
        assert now[j..] == before[j..] + [entries[i]];
      }
    }

    lemma WithEntry(before: seq<StageEntry>, e: StageEntry)
      ensures forall x :: SomeStarts(before + [e], x) <==> SomeStarts(before, x) || (e.index == x && Opens(e))
      ensures forall st :: SomeGives(before + [e], st) <==> SomeGives(before, st) || e.status == Some(st)
      ensures forall x :: SomeEnds(before + [e], x) <==> SomeEnds(before, x) || (e.index == x && e.status.Some?)
    {
      assert e in before + [e] && forall d :: d in before ==> d in before + [e];
    }

    lemma EntriesSoFar(entries: seq<StageEntry>, n: nat)
      requires n <= |entries|
      ensures forall x :: SomeStarts(entries[..n], x) ==> SomeStarts(entries, x)
      ensures forall st :: SomeGives(entries[..n], st) ==> SomeGives(entries, st)
      ensures forall x :: SomeEnds(entries[..n], x) ==> SomeEnds(entries, x)
    {
      assert forall e :: e in entries[..n] ==> e in entries;
    }

    ghost predicate SomeOpens(ds: seq<ToolDelta>, index: int)
    {
      exists d :: d in ds && d.index == index && d.opens && !(d.name.Some? && d.name.value in suppressedNames)
    }

    ghost predicate SomeSuppresses(ds: seq<ToolDelta>, index: int)
    {
      exists d :: d in ds && d.index == index && d.name.Some? && d.name.value in suppressedNames
    }

    /** Stages are kept or suppressed, new ones come from deltas that open, and only a suppressed name suppresses. */
    twostate predicate ToolsFrom(ds: seq<ToolDelta>)
      reads this
    {
      && (forall i :: i in old(tools) ==> (i in tools && tools[i].stage == old(tools)[i].stage) || i in suppressed)
      && (forall i :: i in tools ==> i in old(tools) || SomeOpens(ds, i))
      && (forall i :: i in suppressed ==> i in old(suppressed) || SomeSuppresses(ds, i))
    }

    /** `raised` is the delta whose just-opened stage was lost because building its presentation raised. */
    method StreamToolCallDeltas(ds: seq<ToolDelta>) returns (ok: bool, ghost raised: Option<ToolDelta>)
      requires Valid()
      modifies this`tools, this`suppressed, board
      ensures Valid() && Keeps()
      ensures raised.Some? ==> !ok && raised.value in ds && OpeningRaises(raised.value) && raised.value.index !in tools
      ensures LostStages(board.place) == old(LostStages(board.place)) <==> raised.None?
      ensures old(LostStages(board.place)) <= LostStages(board.place)
      ensures ok ==> forall i :: 0 <= i < |ds| && ds[i].opens ==> ds[i].index in tools || ds[i].index in suppressed
      ensures ToolsFrom(ds)
      ensures !ok ==> CallMayRaise(ds)
      ensures old(board.closes) <= board.closes
      ensures forall k :: |old(board.closes)| <= k < |board.closes| ==> board.closes[k].status == Completed
    {
      hide Owned, LostStages;
      raised := None;
      for i := 0 to |ds|
        invariant Valid() && Keeps() && LostStages(board.place) == old(LostStages(board.place)) && raised.None?
        invariant forall j :: 0 <= j < i && ds[j].opens ==> ds[j].index in tools || ds[j].index in suppressed
        invariant ToolsFrom(ds)
        invariant forall k :: |old(board.closes)| <= k < |board.closes| ==> board.closes[k].status == Completed
      {
        ghost var isNew := ds[i].index !in suppressed && ds[i].index !in tools;
        ghost var before := tools;
        ok := StreamToolCallDelta(ds[i]);
        SameElsewhere(before, tools, ds[i].index);
        assert ds[i] in ds;
        if isNew && OpeningRaises(ds[i]) { raised := Some(ds[i]); }
        if !ok { return; }
      }
      ok := true;
    }

    method OnDelta(d: Delta) returns (ok: bool, ghost raised: Option<ToolDelta>)
      requires Valid()
      modifies this, board
      ensures Valid() && Keeps()
      ensures raised.Some? ==> !ok && raised.value in d.toolCalls && OpeningRaises(raised.value)
      ensures LostStages(board.place) == old(LostStages(board.place)) <==> raised.None?
      ensures old(LostStages(board.place)) <= LostStages(board.place)
      ensures ok && active && (d.toolCalls != [] || (d.hasContent && streamContent)) ==> reasoning == map[]
      ensures ok && active ==> !d.attachmentRaises && !(d.hasContent && streamContent && d.contentRaises)
      ensures ok && active && propagateStages ==>
                forall i :: 0 <= i < |d.entries| && Opens(d.entries[i]) ==> !d.entries[i].contentRaises
      ensures !active ==> ok && raised.None? && reasoning == old(reasoning) && tools == old(tools)
      ensures d.toolCalls == [] ==> tools == old(tools) && suppressed == old(suppressed)
      ensures ok && active ==>
                forall i :: 0 <= i < |d.toolCalls| && d.toolCalls[i].opens ==>
                  d.toolCalls[i].index in tools || d.toolCalls[i].index in suppressed
      ensures ToolsFrom(d.toolCalls)
      ensures ok && active && propagateStages && d.toolCalls == [] && !(d.hasContent && streamContent) ==>
                forall i :: 0 <= i < |d.entries| && Opens(d.entries[i]) ==> ShownOrEnded(d.entries, i)
      ensures !active ==> board.created == old(board.created) && board.closes == old(board.closes)
      ensures !ok ==> MayRaise(d)
      ensures forall k :: |old(board.closes)| <= k < |board.closes| ==>
                board.closes[k].status == Completed || SomeGives(d.entries, board.closes[k].status)
    {
      hide Owned, LostStages;
      raised := None;
      if !active { return true, None; }
      if d.attachmentRaises { return false, None; }
      ok := ApplyCustom(d.entries);
      if !ok { return; }
      if d.toolCalls != [] || (d.hasContent && streamContent) {
        CloseAllStreamingStages(Completed);
      }
      if d.hasContent && streamContent && d.contentRaises { return false, None; }
      if d.toolCalls != [] { ok, raised := StreamToolCallDeltas(d.toolCalls); }
    }

    method OnStreamSuccess()
      requires Valid() && accumulator.adopted == map[]
      requires !active ==> reasoning == map[] && tools == map[]
      modifies this`tools, this`reasoning, board, accumulator`adopted
      ensures Valid() && tools == map[] && reasoning == map[] && board.created == old(board.created)
      ensures old(board.closes) <= board.closes
      ensures forall k :: |old(board.closes)| <= k < |board.closes| ==> board.closes[k].status == Completed
      ensures old(LostStages(board.place)) <= LostStages(board.place)
      ensures LostStages(board.place) == old(LostStages(board.place)) <==> DistinctIds(old(tools), accumulator.toolCallIds)
      ensures forall i :: i in old(tools) && IdAt(i, accumulator.toolCallIds).None? ==>
                Close(old(tools)[i].stage, Completed) in board.closes
      ensures DistinctIds(old(tools), accumulator.toolCallIds) ==>
                forall i :: i in old(tools) && IdAt(i, accumulator.toolCallIds).Some? ==>
                  var id := IdAt(i, accumulator.toolCallIds).value;
                  id in accumulator.adopted && accumulator.adopted[id] == old(tools)[i].stage
    {
      hide Owned, LostStages;
      if !active { return; }
      PublishAdoptedToolStages();
      CloseAllStreamingStages(Completed);
    }

    method OnStreamFailure()
      requires Valid()
      requires !active ==> reasoning == map[] && tools == map[]
      modifies this`tools, this`reasoning, board
      ensures Valid() && Keeps() && tools == map[] && reasoning == map[] && board.created == old(board.created)
      ensures forall k :: |old(board.closes)| <= k < |board.closes| ==> board.closes[k].status == Failed
      ensures LostStages(board.place) == old(LostStages(board.place))
    {
      hide Owned, LostStages;
      if !active { return; }
      CloseAllStreamingStages(Failed);
      CloseAllToolStages(Failed);
    }
  }

  // --- the handler --------------------------------------------------------

  /** `ChatStreamPipeline.on_delta`: accumulate, draw, then the sink behind; the first that raises ends it. */
  method ForwardDelta(sink: ChoiceUiSink, d: Delta) returns (ok: bool, ghost raised: Option<ToolDelta>)
    requires sink.Valid()
    modifies sink, sink.board, sink.accumulator`toolCallIds
    ensures sink.Valid() && sink.Keeps()
    ensures sink.accumulator.toolCallIds == AppendIds(old(sink.accumulator.toolCallIds), d.toolCalls)
    ensures raised.Some? ==> !ok && raised.value in d.toolCalls && sink.OpeningRaises(raised.value)
    ensures LostStages(sink.board.place) == old(LostStages(sink.board.place)) <==> raised.None?
    ensures old(LostStages(sink.board.place)) <= LostStages(sink.board.place)
    ensures ok ==> !d.laterSinkRaises
    ensures !ok ==> d.laterSinkRaises || sink.MayRaise(d)
    ensures ok && sink.active ==>
              forall i :: 0 <= i < |d.toolCalls| && d.toolCalls[i].opens ==>
                d.toolCalls[i].index in sink.tools || d.toolCalls[i].index in sink.suppressed
    ensures sink.ToolsFrom(d.toolCalls)
    ensures !sink.active ==> (ok <==> !d.laterSinkRaises) && sink.reasoning == old(sink.reasoning) && sink.tools == old(sink.tools)
  {
    hide Owned, LostStages, AppendId;
    for i := 0 to |d.toolCalls|
      invariant sink.Valid() && sink.accumulator.adopted == old(sink.accumulator.adopted)
      invariant sink.board.place == old(sink.board.place)
      invariant sink.board.created == old(sink.board.created) && sink.board.closes == old(sink.board.closes)
      invariant sink.reasoning == old(sink.reasoning) && sink.tools == old(sink.tools) && sink.suppressed == old(sink.suppressed)
      invariant sink.accumulator.toolCallIds == AppendIds(old(sink.accumulator.toolCallIds), d.toolCalls[..i])
    {
      sink.accumulator.AppendToolCallDelta(d.toolCalls[i]);
      assert d.toolCalls[..i + 1][..i] == d.toolCalls[..i];
    }
    assert d.toolCalls[..|d.toolCalls|] == d.toolCalls;
    ok, raised := sink.OnDelta(d);
    ok := ok && !d.laterSinkRaises;
  }

  /**
   The stream is consumed to its end or to the first call that raises, `streamRaises` saying whether
   reading or parsing it raises after these deltas. Either way no stage stays tracked; `tracked` is
   what the sink held when the stream ended well, `raised` the tool-call delta whose just-opened stage
   raised while its presentation was built. A stage is lost exactly then, or when two tracked calls of a
   stream that ended well have one id.
   */
  method RunStream(sink: ChoiceUiSink, deltas: seq<Delta>, streamRaises: bool)
    returns (succeeded: bool, ghost tracked: map<int, ToolStage>, ghost raised: Option<ToolDelta>)
    requires sink.Valid() && sink.reasoning == map[] && sink.tools == map[] && sink.accumulator.adopted == map[]
    modifies sink, sink.board, sink.accumulator
    ensures sink.Valid() && sink.reasoning == map[] && sink.tools == map[]
    ensures !succeeded ==> sink.accumulator.adopted == map[]
    ensures !succeeded ==> streamRaises || exists k :: 0 <= k < |deltas| && (deltas[k].laterSinkRaises || sink.MayRaise(deltas[k]))
    ensures succeeded ==> !streamRaises && sink.accumulator.toolCallIds == IdsAfter(old(sink.accumulator.toolCallIds), deltas)
    ensures succeeded && DistinctIds(tracked, sink.accumulator.toolCallIds) ==>
              forall i :: i in tracked && IdAt(i, sink.accumulator.toolCallIds).Some? ==>
                var id := IdAt(i, sink.accumulator.toolCallIds).value;
                id in sink.accumulator.adopted && sink.accumulator.adopted[id] == tracked[i].stage
    ensures succeeded && sink.active ==>
              forall k :: 0 <= k < |deltas| ==> EveryCallShown(deltas[k].toolCalls, tracked, sink.suppressed)
    ensures succeeded ==> forall i :: i in tracked ==> exists k :: 0 <= k < |deltas| && sink.SomeOpens(deltas[k].toolCalls, i)
    ensures forall i :: i in sink.suppressed ==>
              i in old(sink.suppressed) || exists k :: 0 <= k < |deltas| && sink.SomeSuppresses(deltas[k].toolCalls, i)
    ensures succeeded ==>
              forall i :: i in tracked && IdAt(i, sink.accumulator.toolCallIds).None? ==>
                Close(tracked[i].stage, Completed) in sink.board.closes
    ensures raised.Some? ==> !succeeded && sink.OpeningRaises(raised.value)
    ensures raised.Some? ==> exists k :: 0 <= k < |deltas| && raised.value in deltas[k].toolCalls
    ensures LostStages(sink.board.place) == old(LostStages(sink.board.place)) <==>
              raised.None? && (succeeded ==> DistinctIds(tracked, sink.accumulator.toolCallIds))
  {
    hide Owned, LostStages, AppendIds;
    succeeded, tracked, raised := false, map[], None;
    var i := 0;
    while i < |deltas|
      invariant 0 <= i <= |deltas|
      invariant sink.Valid() && sink.accumulator.adopted == map[]
      invariant LostStages(sink.board.place) == old(LostStages(sink.board.place))
      invariant sink.accumulator.toolCallIds == IdsAfter(old(sink.accumulator.toolCallIds), deltas[..i])
      invariant !sink.active ==> sink.reasoning == map[] && sink.tools == map[]
      invariant sink.active ==> forall k :: 0 <= k < i ==> EveryCallShown(deltas[k].toolCalls, sink.tools, sink.suppressed)
      invariant forall j :: j in sink.tools ==> exists k :: 0 <= k < i && sink.SomeOpens(deltas[k].toolCalls, j)
      invariant forall j :: j in sink.suppressed ==>
                  j in old(sink.suppressed) || exists k :: 0 <= k < i && sink.SomeSuppresses(deltas[k].toolCalls, j)
    {
      var ok;
      ok, raised := ForwardDelta(sink, deltas[i]);
      assert deltas[..i + 1][..i] == deltas[..i];
      if !ok {
        sink.OnStreamFailure();
        return;
      }
      i := i + 1;
    }
    raised := None;
    assert deltas[..|deltas|] == deltas;
    if streamRaises {
      sink.OnStreamFailure();
      return;
    }
    tracked := sink.tools;
    sink.OnStreamSuccess();
    succeeded := true;
  }

  /** Every tool call that opens a stage has one, or is suppressed. */
  predicate EveryCallShown(ds: seq<ToolDelta>, tools: map<int, ToolStage>, suppressed: set<int>) {
    forall i :: 0 <= i < |ds| && ds[i].opens ==> ds[i].index in tools || ds[i].index in suppressed
  }

  function IdAt(index: int, ids: map<int, Option<string>>): Option<string> {
    if index in ids then ids[index] else None
  }

  /** No two of these indexes have the same id. */
  ghost predicate DistinctAmong(indexes: set<int>, ids: map<int, Option<string>>) {
    forall i, j :: i in indexes && j in indexes && i != j && IdAt(i, ids).Some? ==> IdAt(i, ids) != IdAt(j, ids)
  }

  lemma AddIndex(indexes: set<int>, index: int, ids: map<int, Option<string>>)
    requires index !in indexes
    ensures DistinctAmong(indexes + {index}, ids) <==>
            DistinctAmong(indexes, ids) && (IdAt(index, ids).Some? ==> forall i :: i in indexes ==> IdAt(i, ids) != IdAt(index, ids))
  {
    if DistinctAmong(indexes + {index}, ids) && IdAt(index, ids).Some? {
      forall i | i in indexes ensures IdAt(i, ids) != IdAt(index, ids) {
        assert i in indexes + {index} && index in indexes + {index};
      }
    }
  }

  lemma SameElsewhere<V>(a: map<int, V>, b: map<int, V>, index: int)
    requires a - {index} == b - {index}
    ensures forall i :: i != index ==> (i in a <==> i in b) && (i in a ==> a[i] == b[i])
  {
    forall i | i != index ensures (i in a <==> i in b) && (i in a ==> a[i] == b[i]) {
      assert i in a <==> i in a - {index};
      assert i in b <==> i in b - {index};
      if i in a {
        assert (a - {index})[i] == a[i] && (b - {index})[i] == b[i];
      }
    }
  }

  lemma SomeIndex(s: set<int>)
    ensures s == {} || exists i :: i in s
  {
    if forall i :: i !in s {
      assert s == {};
    }
  }

  ghost predicate DistinctIds(tools: map<int, ToolStage>, ids: map<int, Option<string>>) {
    DistinctAmong(tools.Keys, ids)
  }
}
