/** Any sequence of registrations, deferrals and syncs: which hooks the two dicts hold in the end. */
module StageCloseRuns {
  import opened Wrappers
  import opened StageCloseRegistry

  /** A call of the registry before its flush. */
  datatype Op =
    | Register(wrapper: Wrapper, hook: Hook, id: Option<string>)
    | Defer(wrapper: Wrapper)
    | SyncWith(messages: seq<Message>)

  datatype Dicts = Dicts(pending: seq<Pending>, keyed: seq<Keyed>)

  function Do(d: Dicts, op: Op): Dicts {
    match op
    case Register(w, hook, Some(id)) => d.(keyed := SetKeyed(d.keyed, Keyed(id, w, hook)))
    case Register(w, hook, None) => d.(pending := Queue(d.pending, w, hook))
    case Defer(w) => if IsPending(d.pending, w) then d else d.(pending := d.pending + [Pending(w, [])])
    case SyncWith(messages) => d.(keyed := Sync(d.keyed, messages))
  }

  function After(ops: seq<Op>): Dicts {
    if ops == [] then Dicts([], []) else Do(After(ops[..|ops| - 1]), ops[|ops| - 1])
  }

  // --- the two dicts' inputs ----------------------------------------------

  /** Message `i` is the last tool message with this id. */
  predicate IsLast(messages: seq<Message>, id: string, i: nat) {
    && i < |messages| && messages[i].isTool && messages[i].toolCallId == Some(id)
    && forall j :: i < j < |messages| ==> !(messages[j].isTool && messages[j].toolCallId == Some(id))
  }

  lemma {:induction false} ToolMessageIsLast(messages: seq<Message>, id: string)
    ensures forall i: nat :: IsLast(messages, id, i) ==> ToolMessage(messages, id) == Some(messages[i])
    ensures (forall i :: 0 <= i < |messages| ==> !(messages[i].isTool && messages[i].toolCallId == Some(id))) ==>
              ToolMessage(messages, id).None?
    decreases messages
  {
    if messages != [] {
      var init, last := messages[..|messages| - 1], messages[|messages| - 1];
      ToolMessageIsLast(init, id);
      forall i: nat | IsLast(messages, id, i) ensures ToolMessage(messages, id) == Some(messages[i]) {
        if i < |init| {
          assert IsLast(init, id, i) by {
            assert forall j :: i < j < |init| ==> init[j] == messages[j];
          }
          assert !(messages[|init|].isTool && messages[|init|].toolCallId == Some(id));
        }
      }
    }
  }

  /** The failures of a log are those of its actions that raised, each as often as it was done. */
  lemma {:induction false} FailuresAreThoseRaised(log: seq<Action>, raising: set<Hook>, raisingExits: set<Wrapper>, a: Action)
    ensures multiset(Failures(log, raising, raisingExits))[a] ==
            if (match a case Exited(w, _) => w in raisingExits case RanKeyed(_, _, hook) => hook in raising case RanQueued(_, _, hook) => hook in raising)
            then multiset(log)[a] else 0
    decreases log
  {
    if log != [] {
      FailuresAreThoseRaised(log[..|log| - 1], raising, raisingExits, a);
      assert log == log[..|log| - 1] + [log[|log| - 1]];
    }
  }

  // --- what was asked for -------------------------------------------------

  /** The hooks registered for a wrapper without an id, in order. */
  function QueuedFor(ops: seq<Op>, w: Wrapper): seq<Hook> {
    if ops == [] then []
    else
      QueuedFor(ops[..|ops| - 1], w) +
      (match ops[|ops| - 1] case Register(v, hook, None) => if v == w then [hook] else [] case _ => [])
  }

  /** The wrapper was deferred or got a hook without an id. */
  predicate Asked(ops: seq<Op>, w: Wrapper) {
    exists op :: op in ops && (op == Defer(w) || (op.Register? && op.wrapper == w && op.id.None?))
  }

  /** The hook an id stands for: the last one registered, or the result of a later tool message with that id. */
  function KeyedFor(ops: seq<Op>, id: string): Option<Keyed> {
    if ops == [] then None
    else
      var before := KeyedFor(ops[..|ops| - 1], id);
      match ops[|ops| - 1]
      case Register(w, hook, Some(key)) => if key == id then Some(Keyed(id, w, hook)) else before
      case SyncWith(messages) =>
        if before.Some? && ToolMessage(messages, id).Some?
        then Some(before.value.(hook := AddResult(before.value.wrapper, ToolMessage(messages, id).value.content)))
        else before
      case _ => before
  }

  // --- and what the dicts hold --------------------------------------------

  ghost predicate Agree(d: Dicts, ops: seq<Op>) {
    && DistinctWrappers(d.pending) && DistinctIds(d.keyed)
    && (forall i :: 0 <= i < |d.pending| ==> d.pending[i].hooks == QueuedFor(ops, d.pending[i].wrapper))
    && (forall w :: IsPending(d.pending, w) <==> Asked(ops, w))
    && (forall i :: 0 <= i < |d.keyed| ==> KeyedFor(ops, d.keyed[i].id) == Some(d.keyed[i]))
    && (forall id :: KeyedFor(ops, id).Some? ==> HasId(d.keyed, id))
  }

  lemma AskedSnoc(ops: seq<Op>, w: Wrapper)
    requires ops != []
    ensures var last := ops[|ops| - 1];
      Asked(ops, w) <==> Asked(ops[..|ops| - 1], w) || last == Defer(w) || (last.Register? && last.wrapper == w && last.id.None?)
  {
    assert ops == ops[..|ops| - 1] + [ops[|ops| - 1]];
  }

  lemma {:induction false} NothingQueued(ops: seq<Op>, w: Wrapper)
    requires !Asked(ops, w)
    ensures QueuedFor(ops, w) == []
  {
    if ops != [] {
      AskedSnoc(ops, w);
      NothingQueued(ops[..|ops| - 1], w);
    }
  }

  lemma QueueAgrees(pending: seq<Pending>, w: Wrapper, hook: Hook)
    requires DistinctWrappers(pending)
    ensures DistinctWrappers(Queue(pending, w, hook))
    ensures forall v :: IsPending(Queue(pending, w, hook), v) <==> IsPending(pending, v) || v == w
    ensures forall i :: 0 <= i < |Queue(pending, w, hook)| ==>
              var p := Queue(pending, w, hook)[i];
              if i < |pending| then
                p.wrapper == pending[i].wrapper && p.hooks == pending[i].hooks + (if p.wrapper == w then [hook] else [])
              else p == Pending(w, [hook]) && !IsPending(pending, w)
  {
    var after := Queue(pending, w, hook);
    forall v ensures IsPending(after, v) <==> IsPending(pending, v) || v == w {
      forall i | 0 <= i < |pending| ensures after[i].wrapper == pending[i].wrapper {}
      if IsPending(pending, v) {
        var i :| 0 <= i < |pending| && pending[i].wrapper == v;
        assert after[i].wrapper == v;
      } else if v == w {
        assert after[|pending|].wrapper == w;
      }
    }
  }

  lemma PendingStep(d: Dicts, ops: seq<Op>, op: Op)
    requires Agree(d, ops)
    ensures var pending := Do(d, op).pending;
      && DistinctWrappers(pending)
      && (forall i :: 0 <= i < |pending| ==> pending[i].hooks == QueuedFor(ops + [op], pending[i].wrapper))
      && (forall w :: IsPending(pending, w) <==> Asked(ops + [op], w))
  {
    assert (ops + [op])[..|ops|] == ops;
    var pending := Do(d, op).pending;
    hide KeyedFor, SetKeyed, Sync, Queue, IsPending, HasId, Asked;
    forall w ensures Asked(ops + [op], w) <==> Asked(ops, w) || op == Defer(w) || (op.Register? && op.wrapper == w && op.id.None?)
             ensures IsPending(d.pending, w) <==> Asked(ops, w) {
      AskedSnoc(ops + [op], w);
    }
    match op {
      case Register(w, hook, None) =>
        QueueAgrees(d.pending, w, hook);
        if !Asked(ops, w) { NothingQueued(ops, w); }
      case Defer(w) =>
        DeferAgrees(d.pending, w);
        if !Asked(ops, w) { NothingQueued(ops, w); }
      case _ =>
    }
  }

  lemma DeferAgrees(pending: seq<Pending>, w: Wrapper)
    requires DistinctWrappers(pending)
    ensures !IsPending(pending, w) ==> DistinctWrappers(pending + [Pending(w, [])])
    ensures forall v :: IsPending(pending + [Pending(w, [])], v) <==> IsPending(pending, v) || v == w
  {
    var after := pending + [Pending(w, [])];
    forall v ensures IsPending(after, v) <==> IsPending(pending, v) || v == w {
      if IsPending(pending, v) {
        var i :| 0 <= i < |pending| && pending[i].wrapper == v;
        assert after[i].wrapper == v;
      } else if v == w {
        assert after[|pending|].wrapper == w;
      }
    }
  }

  lemma SetAgrees(keyed: seq<Keyed>, k: Keyed)
    requires DistinctIds(keyed)
    ensures DistinctIds(SetKeyed(keyed, k))
    ensures forall id :: HasId(SetKeyed(keyed, k), id) <==> HasId(keyed, id) || id == k.id
    ensures forall i :: 0 <= i < |SetKeyed(keyed, k)| ==>
              SetKeyed(keyed, k)[i] == if i < |keyed| && keyed[i].id != k.id then keyed[i] else k
  {
    var after := SetKeyed(keyed, k);
    forall id ensures HasId(after, id) <==> HasId(keyed, id) || id == k.id {
      forall i | 0 <= i < |keyed| ensures after[i].id == keyed[i].id {}
      if HasId(keyed, id) {
        var i :| 0 <= i < |keyed| && keyed[i].id == id;
        assert after[i].id == id;
      } else if id == k.id {
        assert after[|keyed|].id == id;
      }
    }
  }

  lemma SyncAgrees(keyed: seq<Keyed>, messages: seq<Message>)
    ensures forall id :: HasId(Sync(keyed, messages), id) <==> HasId(keyed, id)
  {
    var after := Sync(keyed, messages);
    forall id ensures HasId(after, id) <==> HasId(keyed, id) {
      if HasId(keyed, id) {
        var i :| 0 <= i < |keyed| && keyed[i].id == id;
        assert after[i].id == id;
      }
    }
  }

  lemma KeyedStep(d: Dicts, ops: seq<Op>, op: Op)
    requires Agree(d, ops)
    ensures var keyed := Do(d, op).keyed;
      && DistinctIds(keyed)
      && (forall i :: 0 <= i < |keyed| ==> KeyedFor(ops + [op], keyed[i].id) == Some(keyed[i]))
      && (forall id :: KeyedFor(ops + [op], id).Some? ==> HasId(keyed, id))
  {
    assert (ops + [op])[..|ops|] == ops;
    match op {
      case Register(w, hook, Some(id)) => SetAgrees(d.keyed, Keyed(id, w, hook));
      case SyncWith(messages) => SyncAgrees(d.keyed, messages);
      case _ =>
    }
    hide Queue, QueuedFor, Asked, IsPending, SetKeyed, HasId;
  }

  /**
   After any calls: a wrapper is pending exactly when it was asked for, with all its hooks in the order of
   their registration, and an id stands for the last hook registered or synced for it.
   */
  lemma {:induction false} DictsHoldWhatWasAsked(ops: seq<Op>)
    ensures Agree(After(ops), ops)
    decreases ops
  {
    if ops != [] {
      var before, last := ops[..|ops| - 1], ops[|ops| - 1];
      DictsHoldWhatWasAsked(before);
      PendingStep(After(before), before, last);
      KeyedStep(After(before), before, last);
      assert before + [last] == ops;
    }
  }

  /** So a flush runs each hook registered for a wrapper exactly once, at its place in the order of registration. */
  lemma EveryHookRuns(ops: seq<Op>, w: Wrapper, failed: bool, place: nat)
    requires place < |QueuedFor(ops, w)|
    ensures multiset(FlushActions(After(ops).keyed, After(ops).pending, failed))[RanQueued(w, place, QueuedFor(ops, w)[place])] == 1
  {
    DictsHoldWhatWasAsked(ops);
    if !Asked(ops, w) { NothingQueued(ops, w); }
    var pending := After(ops).pending;
    assert IsPending(pending, w);
    var n :| 0 <= n < |pending| && pending[n].wrapper == w;
    QueuedRunsOnce(After(ops).keyed, pending, failed, n, place);
  }

  /** And the hook an id stands for runs exactly once if its wrapper was asked for, and else never. */
  lemma KeyedHookRuns(ops: seq<Op>, id: string, failed: bool)
    requires KeyedFor(ops, id).Some?
    ensures var k := KeyedFor(ops, id).value;
      multiset(FlushActions(After(ops).keyed, After(ops).pending, failed))[RanKeyed(id, k.wrapper, k.hook)] == if Asked(ops, k.wrapper) then 1 else 0
  {
    DictsHoldWhatWasAsked(ops);
    var k, keyed := KeyedFor(ops, id).value, After(ops).keyed;
    assert HasId(keyed, id);
    var i :| 0 <= i < |keyed| && keyed[i].id == id;
    assert keyed[i] == k;
    FlushCounts(keyed, After(ops).pending, failed, k, k.wrapper);
  }
}
