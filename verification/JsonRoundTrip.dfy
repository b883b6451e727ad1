/** What `json.loads` makes of a printed value, and which values survive printing and reading. */
module JsonRoundTrip {
  import opened PyText
  import opened Json
  import opened JsonLoads
  import opened JsonSyntax
  import opened JsonDumpsProofs

  // --- strings ------------------------------------------------------------

  predicate LonePair(t: Text, i: nat) {
    i + 1 < |t| && 0xD800 <= t[i] <= 0xDBFF && 0xDC00 <= t[i + 1] <= 0xDFFF
  }

  function Joined(high: CodePoint, low: CodePoint): (c: CodePoint)
    requires 0xD800 <= high <= 0xDBFF && 0xDC00 <= low <= 0xDFFF
    ensures c >= 0x1_0000
  {
    0x1_0000 + (high - 0xD800) * 0x400 + (low - 0xDC00)
  }

  /** A lone high surrogate right before a lone low one comes back as one character. */
  function JoinPairs(t: Text): (r: Text)
    ensures |r| <= |t|
  {
    if t == [] then []
    else if LonePair(t, 0) then [Joined(t[0], t[1])] + JoinPairs(t[2..])
    else [t[0]] + JoinPairs(t[1..])
  }

  lemma ItemOfUnit(c: CodePoint)
    requires c < 0x1_0000
    ensures |CharItems(c)| == 1 && Unit(CharItems(c)[0]) == c
    ensures HighEscape(CharItems(c)[0]) <==> 0xD800 <= c <= 0xDBFF
    ensures LowEscape(CharItems(c)[0]) <==> 0xDC00 <= c <= 0xDFFF
    ensures 0xD800 <= c <= 0xDFFF ==> Hex4(CharItems(c)[0].hex) == c
  {
  }

  lemma ItemsOfAstral(c: CodePoint)
    requires c >= 0x1_0000
    ensures |CharItems(c)| == 2 && PairAt(CharItems(c), 0) && !LowEscape(CharItems(c)[0])
    ensures 0x1_0000 + (Hex4(CharItems(c)[0].hex) - 0xD800) * 0x400 + (Hex4(CharItems(c)[1].hex) - 0xDC00) == c
  {
  }

  lemma FirstItem(t: Text)
    requires t != []
    ensures EscapeItems(t) == CharItems(t[0]) + EscapeItems(t[1..]) && |CharItems(t[0])| >= 1
    ensures EscapeItems(t) != [] && EscapeItems(t)[0] == CharItems(t[0])[0]
  {
    hide CharItems;
    if t[0] < 0x1_0000 { ItemOfUnit(t[0]); } else { ItemsOfAstral(t[0]); }
  }

  lemma ValueOfPair(items: seq<StringItem>)
    requires PairAt(items, 0)
    ensures StringValue(items)
         == [0x1_0000 + (Hex4(items[0].hex) - 0xD800) * 0x400 + (Hex4(items[1].hex) - 0xDC00)] + StringValue(items[2..])
  {
  }

  lemma ValueOfUnit(items: seq<StringItem>)
    requires items != [] && !PairAt(items, 0)
    ensures StringValue(items) == [Unit(items[0])] + StringValue(items[1..])
  {
  }

  /** An astral character in front. */
  lemma AstralValue(c: CodePoint, rest: seq<StringItem>)
    requires c >= 0x1_0000
    ensures StringValue(CharItems(c) + rest) == [c] + StringValue(rest)
  {
    hide CharItems, StringValue;
    ItemsOfAstral(c);
    var items := CharItems(c) + rest;
    assert items[2..] == rest && items[0] == CharItems(c)[0] && items[1] == CharItems(c)[1];
    ValueOfPair(items);
  }

  /** Any other character in front, with or without a partner behind it. */
  lemma UnitValue(c: CodePoint, rest: seq<StringItem>)
    requires c < 0x1_0000
    ensures var items := CharItems(c) + rest;
      if 0xD800 <= c <= 0xDBFF && rest != [] && LowEscape(rest[0]) then
        StringValue(items) == [Joined(c, Hex4(rest[0].hex))] + StringValue(rest[1..])
      else StringValue(items) == [c] + StringValue(rest)
  {
    hide CharItems, StringValue;
    ItemOfUnit(c);
    var items := CharItems(c) + rest;
    assert items[1..] == rest && items[0] == CharItems(c)[0];
    if PairAt(items, 0) {
      assert items[2..] == rest[1..] && items[1] == rest[0];
      ValueOfPair(items);
    } else {
      assert rest != [] ==> items[1] == rest[0];
      ValueOfUnit(items);
    }
  }

  lemma RestAfterUnit(t: Text)
    requires t != [] && t[0] < 0x1_0000
    ensures EscapeItems(t) != [] && EscapeItems(t)[1..] == EscapeItems(t[1..])
    ensures LowEscape(EscapeItems(t)[0]) <==> 0xDC00 <= t[0] <= 0xDFFF
    ensures 0xD800 <= t[0] <= 0xDFFF ==> Hex4(EscapeItems(t)[0].hex) == t[0]
  {
    FirstItem(t);
    hide CharItems, EscapeItems;
    ItemOfUnit(t[0]);
  }

  lemma AstralStartsHigh(t: Text)
    requires t != [] && t[0] >= 0x1_0000
    ensures EscapeItems(t) != [] && !LowEscape(EscapeItems(t)[0])
  {
    FirstItem(t);
    hide CharItems, EscapeItems;
    ItemsOfAstral(t[0]);
  }

  /** A printed string is read back with its lone pairs joined. */
  lemma {:induction false} EscapedValue(t: Text)
    ensures StringValue(EscapeItems(t)) == JoinPairs(t)
    decreases |t|
  {
    hide CharItems, EscapeItems, StringValue, LowEscape;
    if t == [] {
      NoItems();
    } else {
      var rest := EscapeItems(t[1..]);
      FirstItem(t);
      EscapedValue(t[1..]);
      if t[0] >= 0x1_0000 {
        AstralValue(t[0], rest);
      } else {
        UnitValue(t[0], rest);
        if |t| == 1 {
          NoItems();
          assert t[1..] == [];
        } else if t[1] < 0x1_0000 {
          RestAfterUnit(t[1..]);
          assert t[1..][1..] == t[2..];
          EscapedValue(t[2..]);
        } else {
          AstralStartsHigh(t[1..]);
        }
      }
    }
  }

  lemma NoItems()
    ensures EscapeItems([]) == [] && StringValue([]) == []
  {
  }

  lemma {:induction false} JoinedIsSame(t: Text)
    ensures JoinPairs(t) == t <==> forall i :: 0 <= i < |t| ==> !LonePair(t, i)
    decreases |t|
  {
    if t != [] {
      if LonePair(t, 0) {
        assert |JoinPairs(t)| < |t|;
      } else {
        var rest := t[1..];
        JoinedIsSame(rest);
        assert JoinPairs(t)[1..] == JoinPairs(rest);
        assert forall i :: 0 <= i < |rest| ==> (LonePair(rest, i) <==> LonePair(t, i + 1));
        if forall i :: 0 <= i < |rest| ==> !LonePair(rest, i) {
          forall i | 0 <= i < |t| ensures !LonePair(t, i) {
            if i > 0 { assert !LonePair(rest, i - 1); }
          }
        } else {
          var i :| 0 <= i < |rest| && LonePair(rest, i);
          assert LonePair(t, i + 1);
        }
      }
    }
  }

  // --- values -------------------------------------------------------------

  /** A value as it comes back: numbers by the numeral printed, strings joined, objects as dicts. */
  function Reloaded(v: Json): Json {
    match v
    case Num(n) => Num(NumberText(n))
    case Str(t) => Str(JoinPairs(t))
    case Arr(elems) => Arr(ReloadedElems(elems))
    case Obj(members) => Obj(Dict(ReloadedMembers(members)))
    case _ => v
  }

  function ReloadedElems(elems: seq<Json>): seq<Json> {
    if elems == [] then [] else [Reloaded(elems[0])] + ReloadedElems(elems[1..])
  }

  function ReloadedMembers(members: seq<Member>): seq<Member> {
    if members == [] then []
    else [Member(JoinPairs(members[0].key), Reloaded(members[0].value))] + ReloadedMembers(members[1..])
  }

  lemma WordOfNumeral(n: Numeral)
    ensures n != Lit("null") && n != Lit("true") && n != Lit("false")
  {
    assert Lit("null")[0] == 0x6E && Lit("true")[0] == 0x74 && Lit("false")[0] == 0x66;
  }

  lemma WordOfBool()
    ensures Lit("true") != Lit("null") && Lit("false") != Lit("null") && Lit("false") != Lit("true")
  {
    assert Lit("null")[0] == 0x6E && Lit("true")[0] == 0x74 && Lit("false")[0] == 0x66;
  }

  lemma {:induction false} DumpsSyntaxValue(v: Json, level: nat)
    ensures SyntaxValue(DumpsSyntax(v, level)) == Reloaded(v)
    decreases v, 1
  {
    hide Dict, StringValue, JoinPairs, EscapeItems, Dumps, DumpsElems, DumpsMembers, SyntaxText, ElemsText, MembersText,
         ElemValues, MemberValues, ReloadedElems, ReloadedMembers, ElemsSyntax, MembersSyntax, IsNumber, IsFloatWord, Break;
    NothingReloaded();
    match v {
      case Num(n) => WordOfNumeral(NumberText(n));
      case Str(t) => EscapedValue(t);
      case Arr(elems) =>
        BreakIsPadding(level);
        if elems != [] { ElemsSyntaxValues(elems, level + 1, Break(level)); }
      case Obj(members) =>
        BreakIsPadding(level);
        if members != [] { MembersSyntaxValues(members, level + 1, Break(level)); } else { EmptyDict(); }
      case _ => WordOfBool();
    }
  }

  lemma NothingReloaded()
    ensures ReloadedElems([]) == [] && ReloadedMembers([]) == []
  {
  }

  lemma EmptyDict()
    ensures Dict([]) == []
  {
  }

  lemma {:induction false} ElemsSyntaxValues(elems: seq<Json>, level: nat, last: Padding)
    requires elems != []
    ensures ElemValues(ElemsSyntax(elems, level, last)) == ReloadedElems(elems)
    decreases elems, 0
  {
    DumpsSyntaxValue(elems[0], level);
    hide DumpsSyntax, Reloaded, SyntaxValue;
    if |elems| > 1 {
      ElemsSyntaxValues(elems[1..], level, last);
    } else {
      assert elems[1..] == [] && ReloadedElems(elems) == [Reloaded(elems[0])] + [];
    }
  }

  lemma {:induction false} MembersSyntaxValues(members: seq<Member>, level: nat, last: Padding)
    requires members != []
    ensures MemberValues(MembersSyntax(members, level, last)) == ReloadedMembers(members)
    decreases members, 0
  {
    var m := members[0];
    DumpsSyntaxValue(m.value, level);
    EscapedValue(m.key);
    hide DumpsSyntax, Reloaded, SyntaxValue, JoinPairs, StringValue, EscapeItems;
    if |members| > 1 {
      MembersSyntaxValues(members[1..], level, last);
    } else {
      assert members[1..] == [] && ReloadedMembers(members) == [Member(JoinPairs(m.key), Reloaded(m.value))] + [];
    }
  }

  /** `json.loads(json.dumps(v, indent=4))`, for every value. */
  lemma DumpsIsReloaded(v: Json)
    ensures Loads(Dumps(v, 0)) == Ok(Reloaded(v), [])
  {
    var s := DumpsSyntax(v, 0);
    LoadsLegalText([], s, []);
    DumpsSyntaxValue(v, 0);
    assert [] + SyntaxText(s) + [] == Dumps(v, 0);
  }

  // --- which values survive -----------------------------------------------

  predicate NoLonePair(t: Text) { forall i :: 0 <= i < |t| ==> !LonePair(t, i) }

  /** Numerals print as themselves, no string or key has a lone pair, no object repeats a key. */
  predicate Stable(v: Json) {
    match v
    case Num(n) => NumberText(n) == n
    case Str(t) => NoLonePair(t)
    case Arr(elems) => StableElems(elems)
    case Obj(members) => DistinctKeys(members) && StableMembers(members)
    case _ => true
  }

  predicate StableElems(elems: seq<Json>) {
    elems != [] ==> Stable(elems[0]) && StableElems(elems[1..])
  }

  predicate StableMembers(members: seq<Member>) {
    members != [] ==> NoLonePair(members[0].key) && Stable(members[0].value) && StableMembers(members[1..])
  }

  lemma {:induction false} DictSetLength(d: seq<Member>, m: Member)
    ensures |DictSet(d, m)| == |d| + if HasKey(d, m.key) then 0 else 1
    decreases d
  {
    if d != [] && d[0].key != m.key {
      DictSetLength(d[1..], m);
      if HasKey(d, m.key) {
        var i :| 0 <= i < |d| && d[i].key == m.key;
        assert d[1..][i - 1].key == m.key;
      }
    }
  }

  lemma {:induction false} DictLength(pairs: seq<Member>)
    ensures |Dict(pairs)| <= |pairs|
    ensures |Dict(pairs)| == |pairs| ==> DistinctKeys(pairs)
    decreases pairs
  {
    hide Dict, DictSet, HasKey, DistinctKeys;
    if pairs == [] {
      NoKeys();
    } else {
      var init, last := pairs[..|pairs| - 1], pairs[|pairs| - 1];
      assert pairs == init + [last];
      DictLength(init);
      DictStep(init, last);
      DictSetLength(Dict(init), last);
      if |Dict(pairs)| == |pairs| {
        DictOfDistinct(init);
        DistinctSnoc(init, last);
      }
    }
  }

  lemma NoKeys()
    ensures Dict([]) == [] && DistinctKeys([])
  {
  }

  lemma DistinctSnoc(init: seq<Member>, last: Member)
    requires DistinctKeys(init) && !HasKey(init, last.key)
    ensures DistinctKeys(init + [last])
  {
  }

  lemma {:induction false} ReloadedMembersLength(members: seq<Member>)
    ensures |ReloadedMembers(members)| == |members|
    decreases members
  {
    if members != [] { ReloadedMembersLength(members[1..]); }
  }

  /** A value comes back as it was exactly when it is stable. */
  lemma {:induction false} ReloadedIsSame(v: Json)
    ensures Reloaded(v) == v <==> Stable(v)
    decreases v, 1
  {
    hide JoinPairs, Dict, DistinctKeys;
    match v {
      case Str(t) => JoinedIsSame(t);
      case Arr(elems) => ReloadedElemsAreSame(elems);
      case Obj(members) =>
        var back := ReloadedMembers(members);
        ReloadedMembersAreSame(members);
        ReloadedMembersLength(members);
        DictLength(back);
        if DistinctKeys(back) { DictOfDistinct(back); }
      case _ =>
    }
  }

  lemma {:induction false} ReloadedElemsAreSame(elems: seq<Json>)
    ensures ReloadedElems(elems) == elems <==> StableElems(elems)
    decreases elems, 0
  {
    if elems != [] {
      ReloadedIsSame(elems[0]);
      ReloadedElemsAreSame(elems[1..]);
      hide Reloaded, Stable;
      assert elems == [elems[0]] + elems[1..];
      assert ReloadedElems(elems)[1..] == ReloadedElems(elems[1..]);
    }
  }

  lemma {:induction false} ReloadedMembersAreSame(members: seq<Member>)
    ensures ReloadedMembers(members) == members <==> StableMembers(members)
    decreases members, 0
  {
    if members != [] {
      JoinedIsSame(members[0].key);
      ReloadedIsSame(members[0].value);
      ReloadedMembersAreSame(members[1..]);
      hide Reloaded, Stable, JoinPairs;
      assert members == [members[0]] + members[1..];
      assert ReloadedMembers(members)[1..] == ReloadedMembers(members[1..]);
    }
  }

  /** Printing and reading gives the value back if and only if it is stable. */
  lemma RoundTripIffStable(v: Json)
    ensures Loads(Dumps(v, 0)) == Ok(v, []) <==> Stable(v)
  {
    DumpsIsReloaded(v);
    ReloadedIsSame(v);
  }
}
