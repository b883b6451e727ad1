/**
 A web page too large to show: a notice, a blank line, and as much of the page's text as keeps the whole
 strictly below the byte cap. The stage takes the notice off again.
 */
module WebTruncation {
  import opened PyText
  import opened Utf8
  import opened Wrappers

  const NOTICE_PREFIX := "[Truncated: "
  const SEPARATOR: Text := [NEWLINE, NEWLINE]

  /** The notice before and after the content type. */
  function Head(total: nat): Text { Lit("[Truncated: fetched content is ") + Digits(total) + Lit(" bytes (") }

  function Foot(): Text {
    Lit("), larger than the inline cap; ") + Lit("only the beginning follows. ")
    + Lit("To process the full content, ") + Lit("re-call with a save_path to ")
    + Lit("persist it to the workspace, ") + Lit("then use your available ") + Lit("tools on it.]")
  }

  function Notice(total: nat, contentType: Text): Text { Head(total) + contentType + Foot() }

  /** `compose_truncated_content`. */
  function Compose(notice: Text, head: Text): Text { notice + SEPARATOR + head }

  /** `split_truncation_notice`. */
  function Split(content: Text): (Option<Text>, Text) {
    if HasPrefix(content, Lit(NOTICE_PREFIX)) then
      match Find(content, SEPARATOR)
      case Some(i) => (Some(content[..i]), content[i + 2..])
      case None => (None, content)
    else (None, content)
  }

  /** The bytes kept free for the notice: its own, the separator's, and one. */
  function Reserved(total: nat, contentType: Text): nat {
    |Encode(Notice(total, contentType))| + |Encode(SEPARATOR)| + 1
  }

  function Budget(total: nat, contentType: Text, cap: int): nat {
    if cap > Reserved(total, contentType) then cap - Reserved(total, contentType) else 0
  }

  /** `data[:budget]`, decoded. */
  function TextHead(data: Bytes, budget: nat): Text {
    DecodeIgnoring(if budget < |data| then data[..budget] else data)
  }

  /** `__truncate_with_notice`. */
  function TruncateWithNotice(data: Bytes, contentType: Text, cap: int): Text {
    Compose(Notice(|data|, contentType), TextHead(data, Budget(|data|, contentType, cap)))
  }

  datatype Loaded = Loaded(content: Text, contentType: Text) | NotText

  /** `__load_into_context`; the response's content type may be missing or empty. */
  function LoadIntoContext(data: Bytes, fetchedType: Option<Text>, cap: int): Loaded {
    var text := Decode(data);
    if text.None? then NotText
    else
      var contentType := if fetchedType.None? || fetchedType.value == [] then Lit("text/plain") else fetchedType.value;
      Loaded(if |data| >= cap then TruncateWithNotice(data, contentType, cap) else text.value, contentType)
  }

  // --- the cap ------------------------------------------------------------

  lemma EncodeCompose(notice: Text, head: Text)
    ensures |Encode(Compose(notice, head))| == |Encode(notice)| + |Encode(SEPARATOR)| + |Encode(head)|
    ensures |Encode(SEPARATOR)| == 2
  {
    EncodeConcat(notice + SEPARATOR, head);
    EncodeConcat(notice, SEPARATOR);
    assert SEPARATOR[1..] == [NEWLINE];
    assert Encode([NEWLINE]) == EncodeOne(NEWLINE) + Encode([]);
  }

  /** The head is a prefix of the page's text, fits the budget, and gives up at most three bytes of it. */
  lemma HeadUsesBudget(data: Bytes, text: Text, budget: nat)
    requires Decode(data) == Some(text) && budget <= |data|
    ensures TextHead(data, budget) <= text
    ensures budget - 3 <= |Encode(TextHead(data, budget))| <= budget
  {
    DecodeIsInverse(data, text);
    var k := CutText(text, budget);
    assert data[..|data|] == data;
    if k < |text| {
      EncodeConcat(text[..k], [text[k]]);
      assert text[..k + 1] == text[..k] + [text[k]];
      assert Encode([text[k]]) == EncodeOne(text[k]) + Encode([]);
    } else {
      assert text[..k] == text;
    }
  }

  /** What is loaded stays strictly below the cap exactly when the page is below it or the notice fits. */
  lemma LoadedStaysBelowCap(data: Bytes, fetchedType: Option<Text>, cap: int)
    requires LoadIntoContext(data, fetchedType, cap).Loaded?
    ensures var r := LoadIntoContext(data, fetchedType, cap);
      |Encode(r.content)| < cap <==> |data| < cap || Reserved(|data|, r.contentType) <= cap
  {
    hide Encode, Notice;
    var text := Decode(data).value;
    DecodeIsInverse(data, text);
    if |data| >= cap {
      var contentType := LoadIntoContext(data, fetchedType, cap).contentType;
      var budget := Budget(|data|, contentType, cap);
      HeadUsesBudget(data, text, if budget <= |data| then budget else 0);
      EncodeCompose(Notice(|data|, contentType), TextHead(data, budget));
    }
  }

  /** A page is refused exactly when it is not UTF-8; a type that is missing or empty is plain text; a page below the cap is shown as it is. */
  lemma LoadsExactlyText(data: Bytes, fetchedType: Option<Text>, cap: int)
    ensures LoadIntoContext(data, fetchedType, cap).NotText? <==> forall t :: Scalars(t) ==> Encode(t) != data
    ensures LoadIntoContext(data, fetchedType, cap).Loaded? ==>
              LoadIntoContext(data, fetchedType, cap).contentType ==
                if fetchedType in {None, Some([])} then Lit("text/plain") else fetchedType.value
    ensures LoadIntoContext(data, fetchedType, cap).Loaded? && |data| < cap ==>
              Encode(LoadIntoContext(data, fetchedType, cap).content) == data
  {
    forall t ensures Decode(data) == Some(t) <==> Scalars(t) && Encode(t) == data {
      DecodeIsInverse(data, t);
    }
    hide Encode, Scalars, Decode, TruncateWithNotice;
    if Decode(data).Some? {
      assert Scalars(Decode(data).value) && Encode(Decode(data).value) == data;
    }
  }

  /** The notice names the size of the page in digits and its content type. */
  lemma NoticeTells(total: nat, contentType: Text) returns (digits: Text)
    ensures NumberOf(digits) == total
    ensures Notice(total, contentType) ==
            Lit("[Truncated: fetched content is ") + digits + Lit(" bytes (") + contentType
            + (Lit("), larger than the inline cap; ") + Lit("only the beginning follows. ")
               + Lit("To process the full content, ") + Lit("re-call with a save_path to ")
               + Lit("persist it to the workspace, ") + Lit("then use your available ") + Lit("tools on it.]"))
  {
    DigitsSpell(total);
    digits := Digits(total);
  }

  // --- the notice comes off again -----------------------------------------

  ghost predicate HasSeparator(t: Text) { exists i :: OccursAt(t, SEPARATOR, i) }

  lemma NoticeParts(total: nat)
    ensures NoBreak(Head(total)) && NoBreak(Foot()) && |Foot()| > 0 && |Head(total)| > 0
    ensures HasPrefix(Head(total), Lit(NOTICE_PREFIX))
  {
    PlainLiteral("[Truncated: fetched content is ");
    PlainLiteral(" bytes (");
    PlainLiteral("), larger than the inline cap; ");
    PlainLiteral("only the beginning follows. ");
    PlainLiteral("To process the full content, ");
    PlainLiteral("re-call with a save_path to ");
    PlainLiteral("persist it to the workspace, ");
    PlainLiteral("then use your available ");
    PlainLiteral("tools on it.]");
    assert Head(total)[..|NOTICE_PREFIX|] == Lit(NOTICE_PREFIX);
  }

  /** Between plain text that is not empty, a separator can stand only inside the middle part. */
  lemma SeparatorIsInside(before: Text, middle: Text, after: Text, i: int)
    requires NoBreak(before) && NoBreak(after) && before != [] && after != []
    ensures OccursAt(before + middle + after, SEPARATOR, i) <==> OccursAt(middle, SEPARATOR, i - |before|)
  {
    var all := before + middle + after;
    if OccursAt(all, SEPARATOR, i) {
      assert all[i] == all[i..i + 2][0] && all[i + 1] == all[i..i + 2][1];
      assert middle[i - |before|..i - |before| + 2] == SEPARATOR;
    }
    if OccursAt(middle, SEPARATOR, i - |before|) {
      assert all[i..i + 2] == middle[i - |before|..i - |before| + 2];
    }
  }

  /** Splitting gives back exactly the notice and the head if and only if the content type has no blank line. */
  lemma SplitUndoesCompose(total: nat, contentType: Text, head: Text)
    ensures Split(Compose(Notice(total, contentType), head)) == (Some(Notice(total, contentType)), head)
       <==> !HasSeparator(contentType)
  {
    var before, after, notice := Head(total), Foot(), Notice(total, contentType);
    var content := Compose(notice, head);
    NoticeParts(total);
    hide Head, Foot;
    assert HasPrefix(content, Lit(NOTICE_PREFIX));
    SeparatorAfterNotice(before, contentType, after, head);
    var at := Find(content, SEPARATOR);
    if HasSeparator(contentType) {
      var j :| OccursAt(contentType, SEPARATOR, j);
      assert OccursAt(content, SEPARATOR, j + |before|);
    } else {
      assert at.Some? && !OccursAt(contentType, SEPARATOR, at.value - |before|);
      assert content[..|notice|] == notice && content[|notice| + 2..] == head;
    }
  }

  /** The separators of a composed content up to the end of its notice. */
  lemma SeparatorAfterNotice(before: Text, contentType: Text, after: Text, head: Text)
    requires NoBreak(before) && NoBreak(after) && before != [] && after != []
    ensures var notice := before + contentType + after; var content := Compose(notice, head);
      && OccursAt(content, SEPARATOR, |notice|)
      && forall i :: i < |notice| ==> (OccursAt(content, SEPARATOR, i) <==> OccursAt(contentType, SEPARATOR, i - |before|))
  {
    var notice := before + contentType + after;
    var content := Compose(notice, head);
    assert content[|notice|..|notice| + 2] == SEPARATOR;
    forall i | i < |notice|
      ensures OccursAt(content, SEPARATOR, i) <==> OccursAt(contentType, SEPARATOR, i - |before|)
    {
      SeparatorIsInside(before, contentType, after, i);
      if 0 <= i && i + 2 <= |notice| {
        assert content[i..i + 2] == notice[i..i + 2];
      } else if i == |notice| - 1 {
        assert content[i..i + 2][0] == content[i] == after[|after| - 1];
      }
    }
  }

  lemma DifferentTexts(a: Text, b: Text)
    requires |Encode(a)| != |Encode(b)|
    ensures a != b
  {
  }

  /**
   A page at or over a cap that fits the notice: the content is the notice and a prefix of the page's
   text, at most four bytes short of the cap, and the stage can take the two apart.
   */
  lemma TruncatedPage(data: Bytes, fetchedType: Option<Text>, cap: int) returns (head: Text)
    requires LoadIntoContext(data, fetchedType, cap).Loaded? && |data| >= cap
    requires Reserved(|data|, LoadIntoContext(data, fetchedType, cap).contentType) <= cap
    ensures var r := LoadIntoContext(data, fetchedType, cap); var notice := Notice(|data|, r.contentType);
      && r.content == Compose(notice, head) && head < Decode(data).value
      && cap - 4 <= |Encode(r.content)| < cap
      && (Split(r.content) == (Some(notice), head) <==> !HasSeparator(r.contentType))
  {
    hide Encode, Notice, Split;
    var r, text := LoadIntoContext(data, fetchedType, cap), Decode(data).value;
    var notice, budget := Notice(|data|, r.contentType), cap - Reserved(|data|, r.contentType);
    head := TextHead(data, budget);
    HeadUsesBudget(data, text, budget);
    EncodeCompose(notice, head);
    SplitUndoesCompose(|data|, r.contentType, head);
    DecodeIsInverse(data, text);
    DifferentTexts(head, text);
  }

  /**
   A page shown whole is split by mistake exactly when it starts like a notice and has a blank line; the
   stage then shows part of the page as the notice.
   */
  lemma WholePageIsSplit(data: Bytes, fetchedType: Option<Text>, cap: int)
    requires |data| < cap && LoadIntoContext(data, fetchedType, cap).Loaded?
    ensures var content := LoadIntoContext(data, fetchedType, cap).content;
      && Encode(content) == data
      && (Split(content) == (None, content) <==> !(HasPrefix(content, Lit(NOTICE_PREFIX)) && HasSeparator(content)))
  {
    var content := LoadIntoContext(data, fetchedType, cap).content;
    DecodeIsInverse(data, content);
    var at := Find(content, SEPARATOR);
    if at.None? {
      forall i ensures !OccursAt(content, SEPARATOR, i) {}
    }
  }
}
