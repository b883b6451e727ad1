/** The live JSON rendering of a complete object against the static dump of its loaded parameters. */
module StaticAgreementProofs {
  import opened PyText
  import opened Json
  import opened JsonLoads
  import opened JsonSyntax
  import opened JsonDumpsProofs
  import opened ParameterFormat
  import opened ArgumentStreamer
  import opened ArgumentStreamerProofs
  import opened ArgumentPresenter
  import opened ArgumentPresenterProofs

  // --- what a legal object delivers ---------------------------------------

  function EntryDelivered(m: Entry): Delivered {
    Delivered(Member(Units(m.key), StreamedValue(m.value)), m.value.Literal? && m.value.items != [])
  }

  function MembersDelivered(ms: Members): seq<Delivered> {
    match ms
    case OneMember(m) => [EntryDelivered(m)]
    case MoreMembers(m, rest) => [EntryDelivered(m)] + MembersDelivered(rest)
  }

  lemma {:induction false} NotePieces(key: Text, pieces: seq<Text>, delivered: seq<Delivered>, items: seq<StringItem>)
    ensures NoteAll(Track(Keyed(key, pieces), delivered), PieceEvents(key, items)) ==
            Track(Keyed(key, pieces + SingleUnits(items)), delivered)
    decreases items
  {
    if items == [] {
      assert pieces + [] == pieces;
    } else {
      var unit := [Unit(items[0])];
      assert pieces + [unit] + SingleUnits(items[1..]) == pieces + SingleUnits(items);
      NotePieces(key, pieces + [unit], delivered, items[1..]);
      assert PieceEvents(key, items)[1..] == PieceEvents(key, items[1..]);
    }
  }

  lemma NoteOne(t: Track, e: Event)
    ensures NoteAll(t, [e]) == Note(t, e)
  {
    assert [e][1..] == [];
  }

  lemma NoteEntry(t: Track, m: Entry)
    requires t.listener == Between
    ensures NoteAll(t, EntryEvents(m)) == Track(Between, t.delivered + [EntryDelivered(m)])
  {
    var key := Units(m.key);
    var items := if m.value.Literal? then m.value.items else [];
    var pieces := if m.value.Literal? then PieceEvents(key, items) else [];
    var done := ValueComplete(key, StreamedValue(m.value));
    var t1 := Track(Keyed(key, []), t.delivered);
    var t2 := Track(Keyed(key, SingleUnits(items)), t.delivered);
    NoteOne(t, KeyReady(key));
    NotePieces(key, [], t.delivered, items);
    assert [] + SingleUnits(items) == SingleUnits(items);
    assert NoteAll(t1, pieces) == t2;
    ConcatSingleUnits(items);
    NoteOne(t2, done);
    NoteConcat(t, [KeyReady(key)], pieces);
    NoteConcat(t, [KeyReady(key)] + pieces, [done]);
  }

  lemma {:induction false} NoteMembers(t: Track, ms: Members)
    requires t.listener == Between
    ensures NoteAll(t, MembersEvents(ms)) == Track(Between, t.delivered + MembersDelivered(ms))
    decreases ms
  {
    hide EntryEvents, EntryDelivered, NoteAll;
    NoteEntry(t, ms.m);
    if ms.MoreMembers? {
      var t1 := Track(Between, t.delivered + [EntryDelivered(ms.m)]);
      NoteMembers(t1, ms.rest);
      NoteConcat(t, EntryEvents(ms.m), MembersEvents(ms.rest));
      assert t1.delivered + MembersDelivered(ms.rest) == t.delivered + MembersDelivered(ms);
    }
  }

  function ObjectDelivered(doc: Syntax): seq<Delivered> {
    if doc.Object? then MembersDelivered(doc.members) else []
  }

  lemma NoteObject(doc: Syntax)
    requires doc.EmptyObject? || doc.Object?
    ensures NoteAll(UNHEARD, ObjectEvents(doc)) == Track(Ended, ObjectDelivered(doc))
  {
    var t := UNHEARD;
    NoteOne(Track(Between, ObjectDelivered(doc)), ObjectDone);
    if doc.Object? {
      NoteMembers(t, doc.members);
      assert [] + MembersDelivered(doc.members) == MembersDelivered(doc.members);
      NoteConcat(t, MembersEvents(doc.members), [ObjectDone]);
    } else {
      assert [] + [ObjectDone] == [ObjectDone];
    }
  }

  // --- JSON_OBJECT --------------------------------------------------------

  lemma StreamedMemberPrintsAlike(m: Entry)
    ensures DumpsMember(EntryDelivered(m).member, 1) == DumpsMember(EntryValue(m), 1)
  {
    PairsPrintAlike(m.key);
    if m.value.Literal? { PairsPrintAlike(m.value.items); }
  }

  lemma {:induction false} MembersCons(d: Delivered, rest: seq<Delivered>)
    ensures DeliveredMembers([d] + rest) == [d.member] + DeliveredMembers(rest)
    decreases rest
  {
    if rest == [] {
      assert [d] + rest == [d] && [d][..0] == [];
    } else {
      var init, last := rest[..|rest| - 1], rest[|rest| - 1];
      MembersCons(d, init);
      assert ([d] + rest)[..|rest|] == [d] + init;
    }
  }

  lemma {:induction false} StreamedMembersPrintAlike(ms: Members)
    ensures |DeliveredMembers(MembersDelivered(ms))| == |MemberValues(ms)| > 0
    ensures DumpsMembers(DeliveredMembers(MembersDelivered(ms)), 1) == DumpsMembers(MemberValues(ms), 1)
    decreases ms
  {
    StreamedMemberPrintsAlike(ms.m);
    if ms.OneMember? {
      MembersCons(EntryDelivered(ms.m), []);
      assert [EntryDelivered(ms.m)] + [] == [EntryDelivered(ms.m)];
      assert DeliveredMembers(MembersDelivered(ms))[1..] == MemberValues(ms)[1..] == [];
    } else {
      MembersCons(EntryDelivered(ms.m), MembersDelivered(ms.rest));
      StreamedMembersPrintAlike(ms.rest);
      assert DeliveredMembers(MembersDelivered(ms))[1..] == DeliveredMembers(MembersDelivered(ms.rest));
      assert MemberValues(ms)[1..] == MemberValues(ms.rest);
    }
  }

  function Weight(m: Member): nat { 1 + |Break(1)| + |DumpsMember(m, 1)| }

  function TotalWeight(ms: seq<Member>): nat {
    if ms == [] then 0 else Weight(ms[0]) + TotalWeight(ms[1..])
  }

  lemma {:induction false} TotalWeightSnoc(ms: seq<Member>, m: Member)
    ensures TotalWeight(ms + [m]) == TotalWeight(ms) + Weight(m)
    decreases ms
  {
    if ms == [] {
      assert [m][1..] == [];
    } else {
      TotalWeightSnoc(ms[1..], m);
      assert (ms + [m])[1..] == ms[1..] + [m];
    }
  }

  lemma {:induction false} DumpsLength(ms: seq<Member>)
    requires ms != []
    ensures |DumpsMembers(ms, 1)| + 1 == TotalWeight(ms)
    decreases ms
  {
    if |ms| == 1 {
      assert ms[1..] == [];
    } else {
      DumpsLength(ms[1..]);
    }
  }

  lemma {:induction false} DictSetWeight(d: seq<Member>, m: Member)
    ensures DictSet(d, m) != []
    ensures TotalWeight(DictSet(d, m)) <= TotalWeight(d) + Weight(m)
    ensures HasKey(d, m.key) ==> TotalWeight(DictSet(d, m)) < TotalWeight(d) + Weight(m)
    decreases d
  {
    if d == [] {
      assert [m][1..] == [];
    } else if d[0].key == m.key {
      assert ([m] + d[1..])[1..] == d[1..];
    } else {
      DictSetWeight(d[1..], m);
      assert ([d[0]] + DictSet(d[1..], m))[1..] == DictSet(d[1..], m);
      if HasKey(d, m.key) {
        var i :| 0 <= i < |d| && d[i].key == m.key;
        assert d[1..][i - 1].key == m.key;
      }
    }
  }

  /** A dict prints no longer than the pairs it is built from, and shorter as soon as a key repeats. */
  lemma {:induction false} DictWeight(pairs: seq<Member>)
    ensures TotalWeight(Dict(pairs)) <= TotalWeight(pairs)
    ensures !DistinctKeys(pairs) ==> TotalWeight(Dict(pairs)) < TotalWeight(pairs)
    ensures pairs != [] ==> Dict(pairs) != []
    decreases pairs
  {
    hide TotalWeight, Dict, DictSet, DistinctKeys, HasKey;
    if pairs == [] {
      NoWeight();
    } else {
      var init, last := pairs[..|pairs| - 1], pairs[|pairs| - 1];
      assert pairs == init + [last];
      DictWeight(init);
      DictStep(init, last);
      DictSetWeight(Dict(init), last);
      TotalWeightSnoc(init, last);
      if !DistinctKeys(pairs) && DistinctKeys(init) {
        DictOfDistinct(init);
        RepeatedKey(init, last);
      }
    }
  }

  lemma RepeatedKey(init: seq<Member>, last: Member)
    requires DistinctKeys(init) && !DistinctKeys(init + [last])
    ensures HasKey(init, last.key)
  {
    var pairs := init + [last];
    var i, j :| 0 <= i < j < |pairs| && pairs[i].key == pairs[j].key;
    assert j == |init| && init[i].key == last.key;
  }

  lemma NoWeight()
    ensures Dict([]) == [] && TotalWeight([]) == 0 && DistinctKeys([])
  {
  }

  lemma RequestBlocksDiffer(a: seq<Member>, b: seq<Member>)
    requires a != [] && b != []
    ensures DumpsMembers(a, 1) == DumpsMembers(b, 1) ==> RequestBlock(a) == RequestBlock(b)
    ensures |DumpsMembers(a, 1)| != |DumpsMembers(b, 1)| ==> RequestBlock(a) != RequestBlock(b)
  {
    hide DumpsMembers;
    BodyClosed(a);
    BodyClosed(b);
  }

  /** The loaded arguments of a legal object text. */
  function Params(text: Text): seq<Member> {
    var r := Loads(text);
    if r.Ok? && r.value.Obj? then r.value.members else []
  }

  lemma ParamsOfObject(before: Padding, doc: Syntax, after: Padding)
    requires doc.EmptyObject? || doc.Object?
    ensures Params(before + SyntaxText(doc) + after) == if doc.Object? then Dict(MemberValues(doc.members)) else []
  {
    LoadsLegalText(before, doc, after);
  }

  /**
   JSON_OBJECT mode, every legal object text, any chunks: the streamed block is the static block of
   the loaded arguments if and only if no top-level key repeats.
   */
  lemma JsonModeMatchesStatic(before: Padding, doc: Syntax, after: Padding, chunks: seq<Text>)
    requires doc.EmptyObject? || doc.Object?
    requires Concat(chunks) == before + SyntaxText(doc) + after
    ensures OutText(Present(JsonObjectMode, BLANK, INITIAL, chunks).out) == RequestBlock(Params(Concat(chunks)))
            <==> (doc.Object? ==> DistinctKeys(MemberValues(doc.members)))
  {
    JsonModeShowsDelivered(chunks);
    LegalObjectEvents(before, doc, after, chunks);
    ChunkingIsIrrelevant(INITIAL, chunks);
    NoteObject(doc);
    ParamsOfObject(before, doc, after);
    var shown := DeliveredMembers(ObjectDelivered(doc));
    assert Shown(Track(Ended, ObjectDelivered(doc))) == shown by { assert shown + [] == shown; }
    if doc.Object? {
      var pairs := MemberValues(doc.members);
      StreamedMembersPrintAlike(doc.members);
      DictWeight(pairs);
      DumpsLength(pairs);
      DumpsLength(Dict(pairs));
      RequestBlocksDiffer(shown, Dict(pairs));
      if DistinctKeys(pairs) { DictOfDistinct(pairs); }
    }
  }
}
