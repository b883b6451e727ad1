/** Reading lines of a file page by page: line truncation, the output cap, and the continuation notice. */
module LinePaging {
  import opened PyText
  import opened Wrappers

  const MAX_OUTPUT_CHARS := 8000
  const MAX_LINE_CHARS := 2000

  function TruncationNote(omitted: nat): (t: Text)
    ensures NoBreak(t)
  {
    PlainLiteral("... [line truncated: ");
    PlainLiteral(" more characters; use ");
    PlainLiteral("internal_file_read_chars");
    PlainLiteral(" to read the rest]");
    Lit("... [line truncated: ") + Digits(omitted) + Lit(" more characters; use ")
    + Lit("internal_file_read_chars") + Lit(" to read the rest]")
  }

  /** `truncate_line`. */
  function TruncateLine(line: Text): (t: Text)
    ensures NoBreak(line) ==> NoBreak(t)
  {
    if |line| <= MAX_LINE_CHARS then line
    else line[..MAX_LINE_CHARS] + TruncationNote(|line| - MAX_LINE_CHARS)
  }

  /** A short line stays; a long one keeps its first two thousand characters and says how many more there are and which tool reads them. */
  lemma TruncatedLineTells(line: Text)
    ensures |line| <= 2000 ==> TruncateLine(line) == line
    ensures |line| > 2000 ==> exists omitted: Text ::
              && NumberOf(omitted) == |line| - 2000
              && (forall i :: 0 <= i < |omitted| ==> '0' as int <= omitted[i] <= '9' as int)
              && TruncateLine(line) ==
                   line[..2000] + Lit("... [line truncated: ") + omitted
                   + (Lit(" more characters; use ") + Lit("internal_file_read_chars") + Lit(" to read the rest]"))
  {
    if |line| > 2000 {
      var omitted := Digits(|line| - 2000);
      DigitsSpell(|line| - 2000);
      hide Digits;
      NoteParts(line[..2000], Lit("... [line truncated: "), omitted,
                Lit(" more characters; use "), Lit("internal_file_read_chars"), Lit(" to read the rest]"));
    }
  }

  lemma NoteParts(line: Text, a: Text, omitted: Text, b: Text, c: Text, d: Text)
    ensures line + (a + omitted + b + c + d) == line + a + omitted + (b + c + d)
  {
  }

  /** The newline-joined, truncated lines. */
  function RenderLines(lines: seq<Text>): Text {
    if lines == [] then []
    else if |lines| == 1 then TruncateLine(lines[0])
    else TruncateLine(lines[0]) + [NEWLINE] + RenderLines(lines[1..])
  }

  /** `text.rfind("\n", 0, end)`. */
  function LastBreak(t: Text, end: nat): (r: int)
    requires end <= |t|
    ensures -1 <= r < end
    ensures r >= 0 ==> t[r] == NEWLINE
    ensures forall i :: r < i < end ==> t[i] != NEWLINE
  {
    if end == 0 then -1 else if t[end - 1] == NEWLINE then end - 1 else LastBreak(t, end - 1)
  }

  /** `cap_output`. */
  function CapOutput(t: Text): (r: (Text, bool))
    ensures !r.1 <==> |t| <= MAX_OUTPUT_CHARS
    ensures |r.0| <= MAX_OUTPUT_CHARS && r.0 <= t
    ensures r.1 ==>
      if exists i :: 0 < i <= MAX_OUTPUT_CHARS && t[i] == NEWLINE then
        t[|r.0|] == NEWLINE && forall i :: |r.0| < i <= MAX_OUTPUT_CHARS ==> t[i] != NEWLINE
      else |r.0| == MAX_OUTPUT_CHARS
  {
    if |t| <= MAX_OUTPUT_CHARS then (t, false)
    else
      var cut := LastBreak(t, MAX_OUTPUT_CHARS + 1);
      if cut <= 0 then (t[..MAX_OUTPUT_CHARS], true) else (t[..cut], true)
  }

  function Breaks(t: Text): nat {
    if t == [] then 0 else (if t[0] == NEWLINE then 1 else 0) + Breaks(t[1..])
  }

  /** A page: its text without the notice, and the start line the notice names, if any. */
  datatype Page = Page(body: Text, next: Option<nat>)

  /** `_render_bounded`. */
  function RenderBounded(lines: seq<Text>, start: nat): Page {
    var (bounded, truncated) := CapOutput(RenderLines(lines));
    if !truncated then Page(bounded, None) else Page(bounded, Some(start + Breaks(bounded) + 1))
  }

  /** `lines[start:end]` of a file: the lines from `start` on, before `end` and the end of the file. */
  function Slice(file: seq<Text>, start: nat, end: nat): (r: seq<Text>)
    requires start <= end
    ensures |r| == if start >= |file| then 0 else if end > |file| then |file| - start else end - start
    ensures forall i :: 0 <= i < |r| ==> r[i] == file[start + i]
  {
    if start >= |file| then [] else file[start..if end <= |file| then end else |file|]
  }

  function ReadPage(file: seq<Text>, start: nat, end: nat): Page
    requires start <= end
  {
    RenderBounded(Slice(file, start, end), start)
  }

  // --- where the cap cuts -------------------------------------------------

  /** Lines as `splitlines` gives them, each of which renders below the cap. */
  predicate Readable(lines: seq<Text>) {
    forall i :: 0 <= i < |lines| ==> NoBreak(lines[i]) && |TruncateLine(lines[i])| < MAX_OUTPUT_CHARS
  }

  lemma {:induction false} DigitsLength(n: nat, d: nat, bound: nat)
    requires bound == Pow10(d) && n < bound && d > 0
    ensures |Digits(n)| <= d
    decreases d
  {
    if n >= 10 { DigitsLength(n / 10, d - 1, Pow10(d - 1)); }
  }

  function Pow10(d: nat): nat { if d == 0 then 1 else 10 * Pow10(d - 1) }

  /** Every line shorter than ten to the five thousandth characters renders below the cap. */
  lemma LinesAreReadable(line: Text)
    requires |line| < Pow10(5000)
    ensures |TruncateLine(line)| < MAX_OUTPUT_CHARS
  {
    if |line| > MAX_LINE_CHARS {
      DigitsLength(|line| - MAX_LINE_CHARS, 5000, Pow10(5000));
    }
  }

  lemma {:induction false} BreaksConcat(a: Text, b: Text)
    ensures Breaks(a + b) == Breaks(a) + Breaks(b)
    decreases a
  {
    if a == [] {
      assert a + b == b;
    } else {
      assert (a + b)[1..] == a[1..] + b;
      BreaksConcat(a[1..], b);
    }
  }

  lemma {:induction false} NoBreaks(t: Text)
    requires NoBreak(t)
    ensures Breaks(t) == 0
    decreases t
  {
    if t != [] { NoBreaks(t[1..]); }
  }

  /** The first `k` lines and the rest, joined by the newline between them. */
  lemma {:induction false} RenderSplit(lines: seq<Text>, k: nat)
    requires 0 < k < |lines|
    ensures RenderLines(lines) == RenderLines(lines[..k]) + [NEWLINE] + RenderLines(lines[k..])
    decreases k
  {
    hide TruncateLine;
    if k == 1 {
      assert lines[..1] == [lines[0]];
    } else {
      RenderSplit(lines[1..], k - 1);
      assert lines[1..][..k - 1] == lines[..k][1..];
      assert lines[1..][k - 1..] == lines[k..];
      Regroup(TruncateLine(lines[0]), RenderLines(lines[..k][1..]), RenderLines(lines[k..]));
    }
  }

  lemma Regroup(a: Text, b: Text, c: Text)
    ensures a + [NEWLINE] + (b + [NEWLINE] + c) == a + [NEWLINE] + b + [NEWLINE] + c
  {
  }

  lemma {:induction false} BreaksOfLines(lines: seq<Text>)
    requires lines != [] && Readable(lines)
    ensures Breaks(RenderLines(lines)) == |lines| - 1
    decreases lines
  {
    NoBreaks(TruncateLine(lines[0]));
    if |lines| > 1 {
      BreaksOfLines(lines[1..]);
      BreaksConcat(TruncateLine(lines[0]), [NEWLINE]);
      BreaksConcat(TruncateLine(lines[0]) + [NEWLINE], RenderLines(lines[1..]));
      assert Breaks([NEWLINE]) == 1;
    }
  }

  /** A newline of the rendered text stands between two lines. */
  lemma {:induction false} BreakIsBoundary(lines: seq<Text>, cut: nat) returns (k: nat)
    requires Readable(lines) && cut < |RenderLines(lines)| && RenderLines(lines)[cut] == NEWLINE
    ensures 0 < k < |lines| && RenderLines(lines)[..cut] == RenderLines(lines[..k])
    decreases lines
  {
    var first := TruncateLine(lines[0]);
    if cut == |first| {
      k := 1;
      assert lines[..1] == [lines[0]];
    } else {
      assert |lines| > 1 && cut > |first|;
      var rest := RenderLines(lines[1..]);
      var from := cut - |first| - 1;
      assert rest[from] == NEWLINE;
      var j := BreakIsBoundary(lines[1..], from);
      k := j + 1;
      assert lines[..k][1..] == lines[1..][..j];
      assert RenderLines(lines)[..cut] == first + [NEWLINE] + rest[..from];
    }
  }

  /** A capped page ends at a newline after at least one whole line, and its notice names the next line. */
  lemma CappedPage(lines: seq<Text>, start: nat) returns (k: nat)
    requires Readable(lines) && |RenderLines(lines)| > MAX_OUTPUT_CHARS
    ensures 0 < k < |lines|
    ensures RenderBounded(lines, start) == Page(RenderLines(lines[..k]), Some(start + k))
  {
    hide RenderLines, TruncateLine, LastBreak, Breaks;
    var text := RenderLines(lines);
    var cut := LastBreak(text, MAX_OUTPUT_CHARS + 1);
    LastBreakIsLate(lines);
    k := BreakIsBoundary(lines, cut);
    BreaksOfLines(lines[..k]);
  }

  /** Every rendered line being shorter than the cap, a newline stands in the last stretch before it. */
  lemma LastBreakIsLate(lines: seq<Text>)
    requires Readable(lines) && |RenderLines(lines)| > MAX_OUTPUT_CHARS
    ensures LastBreak(RenderLines(lines), MAX_OUTPUT_CHARS + 1) > 0
  {
    var text, rest := RenderLines(lines), RenderLines(lines[1..]);
    var first := TruncateLine(lines[0]);
    assert |lines| > 1 && text == first + [NEWLINE] + rest;
    if first != [] {
      assert text[|first|] == NEWLINE;
    } else {
      var second := TruncateLine(lines[1]);
      assert |lines| == 2 ==> rest == second;
      assert rest == second + [NEWLINE] + RenderLines(lines[1..][1..]);
      assert text[1 + |second|] == rest[|second|] == NEWLINE;
    }
  }

  /** A page within the cap is whole and has no notice. */
  lemma WholePage(lines: seq<Text>, start: nat)
    ensures RenderBounded(lines, start).next.Some? <==> |RenderLines(lines)| > MAX_OUTPUT_CHARS
    ensures RenderBounded(lines, start).next.None? ==> RenderBounded(lines, start).body == RenderLines(lines)
  {
    hide RenderLines;
  }

  // --- following the notices ----------------------------------------------

  /** The bodies read by following `start_line=` notices to the end. */
  function ReadAll(file: seq<Text>, start: nat, end: nat): seq<Text>
    requires start <= end && Readable(file)
    decreases end - start
  {
    var page := ReadPage(file, start, end);
    if page.next.None? then [page.body]
    else
      NextAdvances(file, start, end);
      [page.body] + ReadAll(file, page.next.value, end)
  }

  lemma ReadableSlice(file: seq<Text>, start: nat, end: nat)
    requires start <= end && Readable(file)
    ensures Readable(Slice(file, start, end))
  {
  }

  lemma NextAdvances(file: seq<Text>, start: nat, end: nat)
    requires start <= end && Readable(file) && ReadPage(file, start, end).next.Some?
    ensures start < ReadPage(file, start, end).next.value < end
  {
    ReadableSlice(file, start, end);
    var k := CappedPage(Slice(file, start, end), start);
  }

  datatype Reply = BadParameter(name: string) | Answer(page: Page)

  /** The tool's call: what a page read answers, or which parameter it rejects. */
  function ReadFileLines(file: seq<Text>, start: int, end: int): Reply {
    if start < 0 then BadParameter("start_line")
    else if end < start then BadParameter("end_line")
    else Answer(ReadPage(file, start, end))
  }

  /** A call that a notice asks for is never rejected, and moves forward inside the same slice. */
  lemma NoticeIsAccepted(file: seq<Text>, start: int, end: int)
    requires Readable(file)
    requires ReadFileLines(file, start, end).Answer? && ReadFileLines(file, start, end).page.next.Some?
    ensures var next := ReadFileLines(file, start, end).page.next.value;
      start < next < end && next < |file| && ReadFileLines(file, next, end).Answer?
  {
    ReadableSlice(file, start, end);
    var k := CappedPage(Slice(file, start, end), start);
  }

  /** A negative start or an end before the start is refused by name; every other call is answered with its page. */
  lemma RefusedExactlyWhen(file: seq<Text>, start: int, end: int)
    ensures start < 0 <==> ReadFileLines(file, start, end) == BadParameter("start_line")
    ensures 0 <= start && end < start <==> ReadFileLines(file, start, end) == BadParameter("end_line")
    ensures 0 <= start <= end ==> ReadFileLines(file, start, end) == Answer(ReadPage(file, start, end))
  {
    assert "start_line"[0] != "end_line"[0];
  }

  function JoinLines(bodies: seq<Text>): Text {
    if bodies == [] then []
    else if |bodies| == 1 then bodies[0]
    else bodies[0] + [NEWLINE] + JoinLines(bodies[1..])
  }

  /**
   Following the notices ends, and the pages put together are every line of the requested slice, once,
   in order, each as `truncate_line` renders it.
   */
  lemma {:induction false} PagesAreTheSlice(file: seq<Text>, start: nat, end: nat)
    requires start <= end && Readable(file)
    ensures JoinLines(ReadAll(file, start, end)) == RenderLines(Slice(file, start, end))
    decreases end - start
  {
    hide RenderBounded, RenderLines, Readable;
    var page := ReadPage(file, start, end);
    var lines := Slice(file, start, end);
    WholePage(lines, start);
    if page.next.Some? {
      ReadableSlice(file, start, end);
      var k := CappedPage(lines, start);
      PagesAreTheSlice(file, start + k, end);
      assert lines[k..] == Slice(file, start + k, end);
      RenderSplit(lines, k);
      var rest := ReadAll(file, start + k, end);
      assert ([page.body] + rest)[1..] == rest && rest != [];
    }
  }

  /** Each page stays within the cap. */
  lemma {:induction false} PagesFitTheCap(file: seq<Text>, start: nat, end: nat)
    requires start <= end && Readable(file)
    ensures forall i :: 0 <= i < |ReadAll(file, start, end)| ==> |ReadAll(file, start, end)[i]| <= 8000
    decreases end - start
  {
    var page := ReadPage(file, start, end);
    if page.next.Some? {
      NextAdvances(file, start, end);
      PagesFitTheCap(file, page.next.value, end);
    }
  }
}
