/** Deferred closing of stage wrappers: queued hooks, keyed hooks kept in step with tool messages, one flush. */
module StageCloseRegistry {
  import opened Wrappers

  /** A wrapper object, by identity. */
  type Wrapper = nat

  /** A UI hook: one that was registered, or `add_result` of a tool message on its wrapper. */
  datatype Hook = Registered(n: nat) | AddResult(wrapper: Wrapper, content: string)

  datatype Message = Message(isTool: bool, toolCallId: Option<string>, content: string)

  /** An entry of `_pending`, an insertion-ordered dict. */
  datatype Pending = Pending(wrapper: Wrapper, hooks: seq<Hook>)

  /** An entry of `_deferred_ui_by_tool_call_id`, an insertion-ordered dict. */
  datatype Keyed = Keyed(id: string, wrapper: Wrapper, hook: Hook)

  /** What a flush does, in order. */
  datatype Action =
    | RanKeyed(id: string, wrapper: Wrapper, hook: Hook)
    | RanQueued(wrapper: Wrapper, place: nat, hook: Hook)
    | Exited(wrapper: Wrapper, failed: bool)

  // --- the two dicts ------------------------------------------------------

  predicate IsPending(pending: seq<Pending>, w: Wrapper) {
    exists i :: 0 <= i < |pending| && pending[i].wrapper == w
  }

  predicate DistinctWrappers(pending: seq<Pending>) {
    forall i, j :: 0 <= i < j < |pending| ==> pending[i].wrapper != pending[j].wrapper
  }

  predicate HasId(keyed: seq<Keyed>, id: string) {
    exists i :: 0 <= i < |keyed| && keyed[i].id == id
  }

  predicate DistinctIds(keyed: seq<Keyed>) {
    forall i, j :: 0 <= i < j < |keyed| ==> keyed[i].id != keyed[j].id
  }

  /** `_pending[id(w)][1].append(fn)`, or a new entry at the end. */
  function Queue(pending: seq<Pending>, w: Wrapper, hook: Hook): seq<Pending> {
    if IsPending(pending, w) then
      seq(|pending|, i requires 0 <= i < |pending| =>
        if pending[i].wrapper == w then Pending(w, pending[i].hooks + [hook]) else pending[i])
    else pending + [Pending(w, [hook])]
  }

  /** `keyed[id] = (w, hook)`. */
  function SetKeyed(keyed: seq<Keyed>, k: Keyed): seq<Keyed> {
    if HasId(keyed, k.id) then
      seq(|keyed|, i requires 0 <= i < |keyed| => if keyed[i].id == k.id then k else keyed[i])
    else keyed + [k]
  }

  // --- sync ---------------------------------------------------------------

  /** The last tool message with this id. */
  function ToolMessage(messages: seq<Message>, id: string): Option<Message> {
    if messages == [] then None
    else
      var last := messages[|messages| - 1];
      if last.isTool && last.toolCallId == Some(id) then Some(last) else ToolMessage(messages[..|messages| - 1], id)
  }

  function SyncOne(k: Keyed, messages: seq<Message>): Keyed {
    match ToolMessage(messages, k.id)
    case None => k
    case Some(m) => k.(hook := AddResult(k.wrapper, m.content))
  }

  function Sync(keyed: seq<Keyed>, messages: seq<Message>): (r: seq<Keyed>)
    ensures |r| == |keyed|
    ensures forall i :: 0 <= i < |keyed| ==> r[i].id == keyed[i].id && r[i].wrapper == keyed[i].wrapper
  {
    seq(|keyed|, i requires 0 <= i < |keyed| => SyncOne(keyed[i], messages))
  }

  lemma {:induction false} ToolMessageOfConcat(a: seq<Message>, b: seq<Message>, id: string)
    ensures ToolMessage(a + b, id) == if ToolMessage(b, id).Some? then ToolMessage(b, id) else ToolMessage(a, id)
    decreases b
  {
    if b == [] {
      assert a + b == a;
    } else {
      assert (a + b)[..|a + b| - 1] == a + b[..|b| - 1];
      ToolMessageOfConcat(a, b[..|b| - 1], id);
    }
  }

  /** Syncing twice is syncing with the messages of both, the later ones winning. */
  lemma SyncTwice(keyed: seq<Keyed>, first: seq<Message>, second: seq<Message>)
    ensures Sync(Sync(keyed, first), second) == Sync(keyed, first + second)
  {
    forall i | 0 <= i < |keyed| ensures SyncOne(SyncOne(keyed[i], first), second) == SyncOne(keyed[i], first + second) {
      ToolMessageOfConcat(first, second, keyed[i].id);
    }
  }

  // --- flush --------------------------------------------------------------

  function KeyedActions(keyed: seq<Keyed>, w: Wrapper): seq<Action> {
    if keyed == [] then []
    else
      KeyedActions(keyed[..|keyed| - 1], w) +
      (var k := keyed[|keyed| - 1]; if k.wrapper == w then [RanKeyed(k.id, w, k.hook)] else [])
  }

  function QueuedActions(w: Wrapper, hooks: seq<Hook>): (r: seq<Action>)
    ensures |r| == |hooks|
  {
    seq(|hooks|, i requires 0 <= i < |hooks| => RanQueued(w, i, hooks[i]))
  }

  function WrapperActions(keyed: seq<Keyed>, p: Pending, failed: bool): seq<Action> {
    KeyedActions(keyed, p.wrapper) + QueuedActions(p.wrapper, p.hooks) + [Exited(p.wrapper, failed)]
  }

  function FlushActions(keyed: seq<Keyed>, pending: seq<Pending>, failed: bool): seq<Action> {
    if pending == [] then []
    else
      FlushActions(keyed, pending[..|pending| - 1], failed) + WrapperActions(keyed, pending[|pending| - 1], failed)
  }

  /** `a` has to come before `b` of the same wrapper: keyed hooks, queued hooks in order, the exit. */
  predicate Before(a: Action, b: Action) {
    match b
    case RanKeyed(_, _, _) => a.RanKeyed?
    case RanQueued(_, place, _) => a.RanKeyed? || (a.RanQueued? && a.place < place)
    case Exited(_, _) => !a.Exited?
  }

  predicate Ordered(log: seq<Action>) {
    forall i, j :: 0 <= i < j < |log| && log[i].wrapper == log[j].wrapper ==> Before(log[i], log[j])
  }

  lemma {:induction false} KeyedActionsOnly(keyed: seq<Keyed>, w: Wrapper)
    ensures forall i :: 0 <= i < |KeyedActions(keyed, w)| ==> KeyedActions(keyed, w)[i].RanKeyed? && KeyedActions(keyed, w)[i].wrapper == w
    decreases keyed
  {
    if keyed != [] { KeyedActionsOnly(keyed[..|keyed| - 1], w); }
  }

  lemma WrapperActionsOnly(keyed: seq<Keyed>, p: Pending, failed: bool)
    ensures var log := WrapperActions(keyed, p, failed);
      && (forall i :: 0 <= i < |log| ==> log[i].wrapper == p.wrapper)
      && (forall i, j :: 0 <= i < j < |log| ==> Before(log[i], log[j]))
      && |log| > 0 && log[|log| - 1] == Exited(p.wrapper, failed)
  {
    KeyedActionsOnly(keyed, p.wrapper);
  }

  lemma {:induction false} FlushOnlyPending(keyed: seq<Keyed>, pending: seq<Pending>, failed: bool)
    ensures forall i :: 0 <= i < |FlushActions(keyed, pending, failed)| ==> IsPending(pending, FlushActions(keyed, pending, failed)[i].wrapper)
    decreases pending
  {
    if pending != [] {
      var init, last := pending[..|pending| - 1], pending[|pending| - 1];
      FlushOnlyPending(keyed, init, failed);
      WrapperActionsOnly(keyed, last, failed);
      var log := FlushActions(keyed, pending, failed);
      forall i | 0 <= i < |log| ensures IsPending(pending, log[i].wrapper) {
        if i < |FlushActions(keyed, init, failed)| {
          assert IsPending(init, log[i].wrapper);
          var k :| 0 <= k < |init| && init[k].wrapper == log[i].wrapper;
          assert pending[k].wrapper == log[i].wrapper;
        }
      }
    }
  }

  /** For each wrapper: its keyed hooks come first, then its queued hooks in order, and its exit is last and only one. */
  lemma {:induction false} FlushOrder(keyed: seq<Keyed>, pending: seq<Pending>, failed: bool)
    requires DistinctWrappers(pending)
    ensures Ordered(FlushActions(keyed, pending, failed))
    decreases pending
  {
    if pending != [] {
      var init, last := pending[..|pending| - 1], pending[|pending| - 1];
      FlushOrder(keyed, init, failed);
      FlushOnlyPending(keyed, init, failed);
      WrapperActionsOnly(keyed, last, failed);
      var head, tail := FlushActions(keyed, init, failed), WrapperActions(keyed, last, failed);
      var log: seq<Action> := head + tail;
      forall i, j | 0 <= i < j < |log| && log[i].wrapper == log[j].wrapper
        ensures Before(log[i], log[j])
      {
        if i < |head| <= j {
          assert IsPending(init, head[i].wrapper) && tail[j - |head|].wrapper == last.wrapper;
          PendingSnoc(pending, last.wrapper);
          assert false;
        } else if |head| <= i {
          assert Before(tail[i - |head|], tail[j - |head|]);
        } else {
          assert Ordered(head) && log[i] == head[i] && log[j] == head[j];
        }
      }
    }
  }

  lemma {:induction false} CountKeyed(keyed: seq<Keyed>, w: Wrapper, k: Keyed)
    requires DistinctIds(keyed)
    ensures multiset(KeyedActions(keyed, w))[RanKeyed(k.id, k.wrapper, k.hook)] == if k in keyed && k.wrapper == w then 1 else 0
    decreases keyed
  {
    if keyed != [] {
      var init, last := keyed[..|keyed| - 1], keyed[|keyed| - 1];
      assert keyed == init + [last];
      CountKeyed(init, w, k);
      if k == last {
        assert k !in init;
      }
    }
  }

  lemma CountInWrapper(keyed: seq<Keyed>, p: Pending, failed: bool, k: Keyed, w: Wrapper)
    requires DistinctIds(keyed)
    ensures var log := multiset(WrapperActions(keyed, p, failed));
      && log[RanKeyed(k.id, k.wrapper, k.hook)] == (if k in keyed && k.wrapper == p.wrapper then 1 else 0)
      && log[Exited(w, failed)] == (if w == p.wrapper then 1 else 0)
  {
    CountKeyed(keyed, p.wrapper, k);
    KeyedActionsOnly(keyed, p.wrapper);
    hide KeyedActions;
    var queued := QueuedActions(p.wrapper, p.hooks);
    assert forall i :: 0 <= i < |queued| ==> queued[i].RanQueued?;
    assert Exited(w, failed) !in KeyedActions(keyed, p.wrapper) && Exited(w, failed) !in queued;
    assert RanKeyed(k.id, k.wrapper, k.hook) !in queued;
    hide QueuedActions;
  }

  /**
   A flush exits each pending wrapper exactly once and no other; a keyed hook runs exactly once if its
   wrapper is pending and not at all if it is not.
   */
  lemma {:induction false} FlushCounts(keyed: seq<Keyed>, pending: seq<Pending>, failed: bool, k: Keyed, w: Wrapper)
    requires DistinctIds(keyed) && DistinctWrappers(pending)
    ensures var log := multiset(FlushActions(keyed, pending, failed));
      && log[Exited(w, failed)] == (if IsPending(pending, w) then 1 else 0)
      && log[RanKeyed(k.id, k.wrapper, k.hook)] == (if k in keyed && IsPending(pending, k.wrapper) then 1 else 0)
    decreases pending
  {
    if pending != [] {
      var init, last := pending[..|pending| - 1], pending[|pending| - 1];
      FlushCounts(keyed, init, failed, k, w);
      CountInWrapper(keyed, last, failed, k, w);
      PendingSnoc(pending, w);
      PendingSnoc(pending, k.wrapper);
    }
  }

  lemma PendingSnoc(pending: seq<Pending>, w: Wrapper)
    requires pending != [] && DistinctWrappers(pending)
    ensures var init, last := pending[..|pending| - 1], pending[|pending| - 1];
      (IsPending(pending, w) <==> IsPending(init, w) || last.wrapper == w) && !(IsPending(init, w) && last.wrapper == w)
  {
    var init, last := pending[..|pending| - 1], pending[|pending| - 1];
    assert forall i :: 0 <= i < |init| ==> init[i] == pending[i];
    if IsPending(init, w) {
      var i :| 0 <= i < |init| && init[i].wrapper == w;
      assert pending[i].wrapper == w;
    }
    assert pending[|pending| - 1] == last;
  }

  lemma NothingForOthers(keyed: seq<Keyed>, pending: seq<Pending>, failed: bool, a: Action)
    requires !IsPending(pending, a.wrapper)
    ensures a !in FlushActions(keyed, pending, failed)
  {
    FlushOnlyPending(keyed, pending, failed);
  }

  /** A queued hook of a pending wrapper runs exactly once. */
  lemma {:induction false} QueuedRunsOnce(keyed: seq<Keyed>, pending: seq<Pending>, failed: bool, n: nat, place: nat)
    requires DistinctWrappers(pending) && n < |pending| && place < |pending[n].hooks|
    ensures multiset(FlushActions(keyed, pending, failed))[RanQueued(pending[n].wrapper, place, pending[n].hooks[place])] == 1
    decreases pending
  {
    var init, last := pending[..|pending| - 1], pending[|pending| - 1];
    var a := RanQueued(pending[n].wrapper, place, pending[n].hooks[place]);
    WrapperActionsOnly(keyed, last, failed);
    if n == |pending| - 1 {
      PendingSnoc(pending, a.wrapper);
      NothingForOthers(keyed, init, failed, a);
      CountQueued(keyed, last, failed, place);
    } else {
      QueuedRunsOnce(keyed, init, failed, n, place);
      assert a !in WrapperActions(keyed, last, failed);
    }
  }

  lemma CountQueued(keyed: seq<Keyed>, p: Pending, failed: bool, place: nat)
    requires place < |p.hooks|
    ensures multiset(WrapperActions(keyed, p, failed))[RanQueued(p.wrapper, place, p.hooks[place])] == 1
  {
    var a := RanQueued(p.wrapper, place, p.hooks[place]);
    KeyedActionsOnly(keyed, p.wrapper);
    assert a !in KeyedActions(keyed, p.wrapper);
    var queued := QueuedActions(p.wrapper, p.hooks);
    assert queued == queued[..place] + [queued[place]] + queued[place + 1..];
    assert a !in queued[..place] && a !in queued[place + 1..];
  }

  // --- calls that raise ---------------------------------------------------

  /** The call of this action raises, `raising` being the hooks and `raisingExits` the wrappers that do. */
  predicate Raises(a: Action, raising: set<Hook>, raisingExits: set<Wrapper>) {
    if a.Exited? then a.wrapper in raisingExits else a.hook in raising
  }

  /** The actions of a log whose calls raised, in order. */
  function Failures(log: seq<Action>, raising: set<Hook>, raisingExits: set<Wrapper>): seq<Action> {
    if log == [] then []
    else
      var last := log[|log| - 1];
      Failures(log[..|log| - 1], raising, raisingExits) + if Raises(last, raising, raisingExits) then [last] else []
  }

  lemma FailuresSnoc(log: seq<Action>, a: Action, raising: set<Hook>, raisingExits: set<Wrapper>)
    ensures Failures(log + [a], raising, raisingExits)
         == Failures(log, raising, raisingExits) + if Raises(a, raising, raisingExits) then [a] else []
  {
    assert (log + [a])[..|log|] == log;
  }

  lemma {:induction false} FailuresConcat(a: seq<Action>, b: seq<Action>, raising: set<Hook>, raisingExits: set<Wrapper>)
    ensures Failures(a + b, raising, raisingExits)
         == Failures(a, raising, raisingExits) + Failures(b, raising, raisingExits)
    decreases b
  {
    if b == [] {
      assert a + b == a;
    } else {
      var init, last := b[..|b| - 1], b[|b| - 1];
      assert a + b == a + init + [last] && b == init + [last];
      FailuresConcat(a, init, raising, raisingExits);
      FailuresSnoc(a + init, last, raising, raisingExits);
    }
  }

  // --- the registry -------------------------------------------------------

  class DeferredStageCloseRegistry {
    var pending: seq<Pending>
    var keyed: seq<Keyed>

    predicate Valid()
      reads this
    {
      DistinctWrappers(pending) && DistinctIds(keyed)
    }

    constructor ()
      ensures Valid() && pending == [] && keyed == []
    {
      pending, keyed := [], [];
    }

    method RegisterStageUiBeforeClose(w: Wrapper, hook: Hook, id: Option<string>)
      requires Valid()
      modifies this
      ensures Valid()
      ensures id.Some? ==> keyed == SetKeyed(old(keyed), Keyed(id.value, w, hook)) && pending == old(pending)
      ensures id.None? ==> pending == Queue(old(pending), w, hook) && keyed == old(keyed)
    {
      if id.Some? {
        keyed := SetKeyed(keyed, Keyed(id.value, w, hook));
        return;
      }
      pending := Queue(pending, w, hook);
    }

    method DeferClose(w: Wrapper)
      requires Valid()
      modifies this
      ensures Valid() && keyed == old(keyed)
      ensures pending == if IsPending(old(pending), w) then old(pending) else old(pending) + [Pending(w, [])]
    {
      if !IsPending(pending, w) { pending := pending + [Pending(w, [])]; }
    }

    /** Hooks follow the current tool messages; ids keep their wrappers. */
    method SyncDeferredStageUiWithToolMessages(messages: seq<Message>)
      requires Valid()
      modifies this
      ensures Valid() && pending == old(pending) && keyed == Sync(old(keyed), messages)
    {
      var i := 0;
      var out := keyed;
      while i < |keyed|
        invariant 0 <= i <= |keyed| == |out| && keyed == old(keyed) && pending == old(pending)
        invariant forall j :: 0 <= j < |keyed| ==> out[j] == if j < i then SyncOne(keyed[j], messages) else keyed[j]
      {
        var found := ToolMessage(messages, keyed[i].id);
        if found.Some? { out := out[i := keyed[i].(hook := AddResult(keyed[i].wrapper, found.value.content))]; }
        i := i + 1;
      }
      keyed := out;
    }

    /**
     Whatever raises, everything pending is run and closed; `reported` are the failures that are logged.
     A second flush finds nothing.
     */
    method Flush(failed: bool, raising: set<Hook>, raisingExits: set<Wrapper>)
      returns (log: seq<Action>, reported: seq<Action>)
      requires Valid()
      modifies this
      ensures log == FlushActions(old(keyed), old(pending), failed)
      ensures reported == Failures(log, raising, raisingExits)
      ensures Valid() && pending == [] && keyed == []
    {
      log, reported := [], [];
      hide KeyedActions, QueuedActions;
      var i := 0;
      while i < |pending|
        invariant 0 <= i <= |pending| && pending == old(pending) && keyed == old(keyed)
        invariant log == FlushActions(keyed, pending[..i], failed)
        invariant reported == Failures(log, raising, raisingExits)
      {
        var w, exit := pending[i].wrapper, Exited(pending[i].wrapper, failed);
        var ran, bad := RunKeyedHooks(w, raising, raisingExits);
        var ranQueued, badQueued := RunQueuedHooks(w, pending[i].hooks, raising, raisingExits);
        assert pending[..i + 1][..i] == pending[..i];
        AppendRun(log, ran, ranQueued, exit, raising, raisingExits);
        log := log + ran + ranQueued + [exit];
        reported := reported + bad + badQueued;
        if w in raisingExits { reported := reported + [exit]; }
        i := i + 1;
      }
      assert pending[..|pending|] == pending;
      pending, keyed := [], [];
    }

    static lemma AppendRun(log: seq<Action>, keyedRun: seq<Action>, queuedRun: seq<Action>, exit: Action,
                           raising: set<Hook>, raisingExits: set<Wrapper>)
      ensures log + (keyedRun + queuedRun + [exit]) == log + keyedRun + queuedRun + [exit]
      ensures Failures(log + keyedRun + queuedRun + [exit], raising, raisingExits)
           == Failures(log, raising, raisingExits) + Failures(keyedRun, raising, raisingExits)
            + Failures(queuedRun, raising, raisingExits) + if Raises(exit, raising, raisingExits) then [exit] else []
    {
      FailuresConcat(log, keyedRun, raising, raisingExits);
      FailuresConcat(log + keyedRun, queuedRun, raising, raisingExits);
      FailuresSnoc(log + keyedRun + queuedRun, exit, raising, raisingExits);
    }

    method RunKeyedHooks(w: Wrapper, raising: set<Hook>, raisingExits: set<Wrapper>)
      returns (log: seq<Action>, reported: seq<Action>)
      ensures log == KeyedActions(keyed, w)
      ensures reported == Failures(log, raising, raisingExits)
    {
      log, reported := [], [];
      for k := 0 to |keyed|
        invariant log == KeyedActions(keyed[..k], w)
        invariant reported == Failures(log, raising, raisingExits)
      {
        assert keyed[..k + 1][..k] == keyed[..k];
        if keyed[k].wrapper == w {
          var action := RanKeyed(keyed[k].id, w, keyed[k].hook);
          FailuresSnoc(log, action, raising, raisingExits);
          log := log + [action];
          if keyed[k].hook in raising { reported := reported + [action]; }
        }
      }
      assert keyed[..|keyed|] == keyed;
    }

    method RunQueuedHooks(w: Wrapper, hooks: seq<Hook>, raising: set<Hook>, raisingExits: set<Wrapper>)
      returns (log: seq<Action>, reported: seq<Action>)
      ensures log == QueuedActions(w, hooks)
      ensures reported == Failures(log, raising, raisingExits)
    {
      log, reported := [], [];
      for k := 0 to |hooks|
        invariant |log| == k && forall j :: 0 <= j < k ==> log[j] == RanQueued(w, j, hooks[j])
        invariant reported == Failures(log, raising, raisingExits)
      {
        var action := RanQueued(w, k, hooks[k]);
        FailuresSnoc(log, action, raising, raisingExits);
        log := log + [action];
        if hooks[k] in raising { reported := reported + [action]; }
      }
    }
  }
}
