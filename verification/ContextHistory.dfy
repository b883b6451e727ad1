/**
 Which message of a history tells what was seen: the latest context call that got a readable answer,
 and what may follow it without changing that.
 */
module ContextHistory {
  import opened ContextEntries
  import opened Wrappers

  /** The first answer to a call id in these messages, those without an id or content left aside. */
  function FirstAnswer(messages: seq<Message>, id: string): Option<Content> {
    if messages == [] || id == "" then None
    else if messages[0].Tool? && messages[0].id == id && messages[0].content.Some? then messages[0].content
    else FirstAnswer(messages[1..], id)
  }

  /** Call `k` of message `i` is a call of the context tool. */
  predicate IsListingCall(messages: seq<Message>, i: nat, k: nat) {
    i < |messages| && messages[i].Assistant? && k < |messages[i].calls|
    && messages[i].calls[k].name == Some(AVAILABLE_CONTEXT_TOOL)
  }

  /** The answer that call got. */
  function AnswerTo(messages: seq<Message>, i: nat, k: nat): Option<Content>
    requires IsListingCall(messages, i, k)
  {
    FirstAnswer(messages[i + 1..], messages[i].calls[k].id)
  }

  predicate Tells(messages: seq<Message>, i: nat, k: nat) {
    IsListingCall(messages, i, k) && AnswerTo(messages, i, k).Some? && AnswerTo(messages, i, k).value.Response?
  }

  /** The latest message decides, and the first of its calls. */
  ghost predicate IsLatest(messages: seq<Message>, i: nat, k: nat) {
    Tells(messages, i, k) && forall j: nat, m: nat :: Tells(messages, j, m) ==> j < i || (j == i && k <= m)
  }

  // --- the scan finds it --------------------------------------------------

  ghost predicate Answers(contents: map<string, Content>, messages: seq<Message>) {
    forall id :: if id in contents then FirstAnswer(messages, id) == Some(contents[id]) else FirstAnswer(messages, id).None?
  }

  predicate CallTells(call: Call, contents: map<string, Content>) {
    call.name == Some(AVAILABLE_CONTEXT_TOOL) && call.id in contents && contents[call.id].Response?
  }

  lemma {:induction false} FirstTellingCall(calls: seq<Call>, contents: map<string, Content>) returns (k: nat)
    ensures k <= |calls| && forall m :: 0 <= m < k ==> !CallTells(calls[m], contents)
    ensures if k < |calls| then
              CallTells(calls[k], contents) && FromCalls(calls, contents) == Some(ParseEntries(contents[calls[k].id].entries))
            else FromCalls(calls, contents).None?
    decreases calls
  {
    hide ParseEntries;
    if calls == [] || CallTells(calls[0], contents) {
      k := 0;
    } else {
      var rest := FirstTellingCall(calls[1..], contents);
      k := rest + 1;
      forall m | 0 <= m < k ensures !CallTells(calls[m], contents) {
        assert m == 0 || calls[m] == calls[1..][m - 1];
      }
    }
  }

  lemma AnswersOneMore(messages: seq<Message>, n: nat, contents: map<string, Content>)
    requires 0 < n <= |messages| && Answers(contents, messages[n..])
    ensures match messages[n - 1]
      case Tool(id, content) =>
        Answers(if id != "" && content.Some? then contents[id := content.value] else contents, messages[n - 1..])
      case _ => Answers(contents, messages[n - 1..])
  {
    assert messages[n - 1..][1..] == messages[n..];
    var contents' := match messages[n - 1]
      case Tool(id, content) => (if id != "" && content.Some? then contents[id := content.value] else contents)
      case _ => contents;
    forall id ensures if id in contents' then FirstAnswer(messages[n - 1..], id) == Some(contents'[id])
                      else FirstAnswer(messages[n - 1..], id).None? {
      assert if id in contents then FirstAnswer(messages[n..], id) == Some(contents[id]) else FirstAnswer(messages[n..], id).None?;
    }
  }

  lemma {:induction false} ScanFrom(messages: seq<Message>, n: nat, contents: map<string, Content>) returns (i: nat, k: nat)
    requires n <= |messages| && Answers(contents, messages[n..])
    ensures i <= n
    ensures forall j: nat, m: nat :: j < n && Tells(messages, j, m) ==> i < n && (j < i || (j == i && k <= m))
    ensures i < n ==> Tells(messages, i, k)
    ensures Scan(messages[..n], contents) == if i < n then ParseEntries(AnswerTo(messages, i, k).value.entries) else map[]
    decreases n
  {
    if n == 0 { return 0, 0; }
    hide ParseEntries, FirstAnswer;
    var last := messages[n - 1];
    assert messages[..n][..n - 1] == messages[..n - 1] && messages[..n][n - 1] == last;
    AnswersOneMore(messages, n, contents);
    if last.Assistant? {
      k := FirstTellingCall(last.calls, contents);
      forall m | 0 <= m < |last.calls| ensures Tells(messages, n - 1, m) <==> CallTells(last.calls[m], contents) {
        var id := last.calls[m].id;
        assert if id in contents then FirstAnswer(messages[n..], id) == Some(contents[id]) else FirstAnswer(messages[n..], id).None?;
      }
      if k < |last.calls| {
        i := n - 1;
        assert Tells(messages, i, k);
        return;
      }
      i, k := ScanFrom(messages, n - 1, contents);
    } else if last.Tool? && last.id != "" && last.content.Some? {
      i, k := ScanFrom(messages, n - 1, contents[last.id := last.content.value]);
    } else {
      i, k := ScanFrom(messages, n - 1, contents);
    }
    if i == n - 1 { i := n; }
  }

  /** What a history tells is the answer to the latest context call that got a readable one; without any, nothing. */
  lemma ScanIsTheLatestAnswer(messages: seq<Message>)
    ensures forall i: nat, k: nat :: IsLatest(messages, i, k) ==>
              Scan(messages, map[]) == ParseEntries(AnswerTo(messages, i, k).value.entries)
    ensures (forall i: nat, k: nat :: !Tells(messages, i, k)) ==> Scan(messages, map[]) == map[]
    ensures (forall i: nat, k: nat :: !Tells(messages, i, k)) || exists i: nat, k: nat :: IsLatest(messages, i, k)
  {
    assert messages[..|messages|] == messages && messages[|messages|..] == [];
    var i, k := ScanFrom(messages, |messages|, map[]);
    hide Scan, ParseEntries;
    if i < |messages| { assert IsLatest(messages, i, k); }
  }

  // --- messages that change nothing ---------------------------------------

  lemma {:induction false} FirstAnswerOfConcat(a: seq<Message>, b: seq<Message>, id: string)
    ensures FirstAnswer(a + b, id) == if FirstAnswer(a, id).Some? then FirstAnswer(a, id) else FirstAnswer(b, id)
    decreases a
  {
    if a == [] {
      assert a + b == b;
    } else {
      assert (a + b)[1..] == a[1..] + b;
      FirstAnswerOfConcat(a[1..], b, id);
    }
  }

  /** No call of the context tool, and no answer to one of the history still without an answer. */
  ghost predicate Quiet(messages: seq<Message>, later: seq<Message>) {
    && (forall i: nat, k: nat :: !IsListingCall(later, i, k))
    && (forall i: nat, k: nat :: IsListingCall(messages, i, k) ==>
          AnswerTo(messages, i, k).Some? || FirstAnswer(later, messages[i].calls[k].id).None?)
  }

  lemma QuietTellsAlike(messages: seq<Message>, later: seq<Message>, i: nat, k: nat)
    requires Quiet(messages, later)
    ensures IsListingCall(messages + later, i, k) <==> IsListingCall(messages, i, k)
    ensures IsListingCall(messages, i, k) ==> AnswerTo(messages + later, i, k) == AnswerTo(messages, i, k)
  {
    if i < |messages| {
      assert (messages + later)[i + 1..] == messages[i + 1..] + later;
      if IsListingCall(messages, i, k) {
        FirstAnswerOfConcat(messages[i + 1..], later, messages[i].calls[k].id);
      }
    } else {
      assert !IsListingCall(later, i - |messages|, k);
    }
  }

  /** Whatever else is said, and whatever other tools are called and answer, the history tells the same. */
  lemma QuietKeepsSeen(messages: seq<Message>, later: seq<Message>)
    requires Quiet(messages, later)
    ensures Scan(messages + later, map[]) == Scan(messages, map[])
  {
    ScanIsTheLatestAnswer(messages);
    ScanIsTheLatestAnswer(messages + later);
    forall i: nat, k: nat ensures IsListingCall(messages + later, i, k) <==> IsListingCall(messages, i, k)
                          ensures IsListingCall(messages, i, k) ==> AnswerTo(messages + later, i, k) == AnswerTo(messages, i, k) {
      QuietTellsAlike(messages, later, i, k);
    }
    hide Scan, ParseEntries, AnswerTo, IsListingCall, Quiet;
    assert forall i: nat, k: nat :: Tells(messages + later, i, k) <==> Tells(messages, i, k);
    if i: nat, k: nat :| IsLatest(messages, i, k) {
      assert IsLatest(messages + later, i, k);
    }
  }

  /** Messages without a context call that answer no context call of the history at all are quiet. */
  lemma OtherAnswersAreQuiet(messages: seq<Message>, later: seq<Message>)
    requires forall i: nat, k: nat :: !IsListingCall(later, i, k)
    requires forall j :: 0 <= j < |later| && later[j].Tool? ==>
               forall i: nat, k: nat :: IsListingCall(messages, i, k) ==> messages[i].calls[k].id != later[j].id
    ensures Quiet(messages, later)
  {
    forall i: nat, k: nat | IsListingCall(messages, i, k) ensures FirstAnswer(later, messages[i].calls[k].id).None? {
      NotAnswered(later, messages[i].calls[k].id);
    }
  }

  lemma {:induction false} NotAnswered(messages: seq<Message>, id: string)
    requires forall j :: 0 <= j < |messages| && messages[j].Tool? ==> messages[j].id != id
    ensures FirstAnswer(messages, id).None?
    decreases messages
  {
    if messages != [] { NotAnswered(messages[1..], id); }
  }

  /**
   The next turn: the history a transformation left, telling just what is offered, then any quiet
   messages. The same offers are not announced again: the history still tells them, which is when
   a transformation adds nothing.
   */
  lemma NextTurnTellsOffers(told: seq<Message>, later: seq<Message>, offers: seq<Offer>)
    requires SeenView(Scan(told, map[])) == ViewOf(offers) && Quiet(told, later)
    ensures SeenView(Scan(told + later, map[])) == ViewOf(offers)
    ensures forall entries :: IsDiff(entries, offers, Scan(told + later, map[])) ==>
              Silent(entries, UrlsOf(offers), Scan(told + later, map[]))
  {
    QuietKeepsSeen(told, later);
    ScanIsKeyed(told, map[]);
    forall entries | IsDiff(entries, offers, Scan(told, map[])) ensures Silent(entries, UrlsOf(offers), Scan(told, map[])) {
      SilentIffUnchanged(entries, offers, Scan(told, map[]));
    }
  }
}
