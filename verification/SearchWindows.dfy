/** Search results with context: merging the windows around the matching lines and printing them. */
module SearchWindows {

  /** A half-open range of line indexes, as handed to a Python slice: `end` may be negative. */
  datatype Window = Window(start: int, end: int)

  function Max(a: int, b: int): int { if a >= b then a else b }

  function Min(a: int, b: int): int { if a <= b then a else b }

  /** The window of one match. */
  function WindowOf(n: nat, context: int, i: nat): Window {
    Window(Max(0, i - context), Min(n, i + context + 1))
  }

  /** The matches in file order. */
  predicate Ascending(n: nat, indices: seq<nat>) {
    && (forall k :: 0 <= k < |indices| ==> indices[k] < n)
    && (forall j, k :: 0 <= j < k < |indices| ==> indices[j] < indices[k])
  }

  /** Where a Python slice of `n` elements stops: a negative end counts from the back. */
  function SliceEnd(n: nat, end: int): int {
    if end < 0 then Max(0, n + end) else Min(n, end)
  }

  /** `line` is printed for this window. */
  predicate InWindow(n: nat, w: Window, line: int) {
    w.start <= line < SliceEnd(n, w.end)
  }

  predicate Printed(n: nat, windows: seq<Window>, line: int) {
    exists k :: 0 <= k < |windows| && InWindow(n, windows[k], line)
  }

  /** `line` is within `context` lines of a match. */
  predicate NearMatch(n: nat, indices: seq<nat>, context: int, line: int) {
    0 <= line < n && exists k :: 0 <= k < |indices| && indices[k] - context <= line <= indices[k] + context
  }

  /** In bounds, non-empty, ascending, and at least one line apart. */
  predicate Separated(n: nat, windows: seq<Window>) {
    && (forall k :: 0 <= k < |windows| ==> 0 <= windows[k].start < windows[k].end <= n)
    && (forall j, k :: 0 <= j < k < |windows| ==> windows[j].end < windows[k].start)
  }

  /** The windows of the matches so far, for a context size that is not negative. */
  ghost predicate MergedSoFar(n: nat, indices: seq<nat>, context: int, merged: seq<Window>) {
    && Separated(n, merged)
    && (merged == [] <==> indices == [])
    && (indices != [] ==>
          var last := indices[|indices| - 1];
          && merged[|merged| - 1].end == Min(n, last + context + 1)
          && merged[|merged| - 1].start <= Max(0, last - context))
    && forall line :: Printed(n, merged, line) <==> NearMatch(n, indices, context, line)
  }

  /** One turn of the merge loop. */
  function MergeOne(merged: seq<Window>, w: Window): seq<Window> {
    if merged != [] && w.start <= merged[|merged| - 1].end then
      merged[|merged| - 1 := Window(merged[|merged| - 1].start, Max(merged[|merged| - 1].end, w.end))]
    else merged + [w]
  }

  lemma MergeOneKeeps(n: nat, indices: seq<nat>, i: nat, context: int, merged: seq<Window>)
    requires context >= 0 && Ascending(n, indices + [i]) && MergedSoFar(n, indices, context, merged)
    ensures MergedSoFar(n, indices + [i], context, MergeOne(merged, WindowOf(n, context, i)))
  {
    var w := WindowOf(n, context, i);
    assert (indices + [i])[|indices|] == i;
    NearSnoc(n, indices, i, context);
    if indices != [] {
      assert (indices + [i])[|indices| - 1] == indices[|indices| - 1];
      if w.start <= merged[|merged| - 1].end {
        ExtendLast(n, merged, w);
      }
    }
    AddLast(n, merged, w);
    hide Printed, NearMatch;
  }

  /** The merge loop: a window that meets the last one extends it. */
  method MergeWindows(n: nat, indices: seq<nat>, context: int) returns (merged: seq<Window>)
    requires Ascending(n, indices)
    ensures context >= 0 ==> Separated(n, merged)
    ensures context >= 0 ==> forall line :: Printed(n, merged, line) <==> NearMatch(n, indices, context, line)
    ensures context < 0 ==> |merged| == |indices| && forall k :: 0 <= k < |indices| ==> merged[k] == WindowOf(n, context, indices[k])
  {
    hide Separated;
    merged := [];
    assert MergedSoFar(n, indices[..0], context, []) by { NothingMerged(n, context); assert indices[..0] == []; }
    for m := 0 to |indices|
      invariant context >= 0 ==> MergedSoFar(n, indices[..m], context, merged)
      invariant context < 0 ==> |merged| == m && forall k :: 0 <= k < m ==> merged[k] == WindowOf(n, context, indices[k])
    {
      var i := indices[m];
      var start, end := Max(0, i - context), Min(n, i + context + 1);
      ghost var before := merged;
      assert indices[..m + 1] == indices[..m] + [i];
      if context >= 0 { MergeOneKeeps(n, indices[..m], i, context, before); }
      if merged != [] && start <= merged[|merged| - 1].end {
        merged := merged[|merged| - 1 := Window(merged[|merged| - 1].start, Max(merged[|merged| - 1].end, end))];
      } else {
        merged := merged + [Window(start, end)];
      }
    }
    assert indices[..|indices|] == indices;
  }

  lemma NothingMerged(n: nat, context: int)
    ensures MergedSoFar(n, [], context, [])
  {
  }

  lemma AddLast(n: nat, windows: seq<Window>, w: Window)
    ensures forall line :: Printed(n, windows + [w], line) <==> Printed(n, windows, line) || InWindow(n, w, line)
  {
    var all := windows + [w];
    forall line ensures Printed(n, all, line) <==> Printed(n, windows, line) || InWindow(n, w, line) {
      if Printed(n, windows, line) {
        var k :| 0 <= k < |windows| && InWindow(n, windows[k], line);
        assert all[k] == windows[k];
      }
      assert all[|windows|] == w;
    }
  }

  /** Two windows that meet print as one. */
  lemma ExtendLast(n: nat, windows: seq<Window>, w: Window)
    requires windows != [] && w.start <= windows[|windows| - 1].end
    ensures var last := windows[|windows| - 1];
      var all := windows[|windows| - 1 := Window(last.start, Max(last.end, w.end))];
      0 <= last.end && 0 <= w.end <= n && last.start <= w.start ==>
        forall line :: Printed(n, all, line) <==> Printed(n, windows, line) || InWindow(n, w, line)
  {
    var last := windows[|windows| - 1];
    var all := windows[|windows| - 1 := Window(last.start, Max(last.end, w.end))];
    if 0 <= last.end && 0 <= w.end <= n && last.start <= w.start {
      forall line ensures Printed(n, all, line) <==> Printed(n, windows, line) || InWindow(n, w, line) {
        if Printed(n, windows, line) {
          var k :| 0 <= k < |windows| && InWindow(n, windows[k], line);
          assert InWindow(n, all[k], line);
        }
        if InWindow(n, w, line) { assert InWindow(n, all[|windows| - 1], line); }
      }
    }
  }

  lemma NearSnoc(n: nat, indices: seq<nat>, i: nat, context: int)
    requires context >= 0 && i < n
    ensures forall line :: NearMatch(n, indices + [i], context, line) <==>
              NearMatch(n, indices, context, line) || InWindow(n, WindowOf(n, context, i), line)
  {
    var all := indices + [i];
    forall line ensures NearMatch(n, all, context, line) <==>
      NearMatch(n, indices, context, line) || InWindow(n, WindowOf(n, context, i), line)
    {
      if NearMatch(n, indices, context, line) {
        var k :| 0 <= k < |indices| && indices[k] - context <= line <= indices[k] + context;
        assert all[k] == indices[k];
      }
      assert all[|indices|] == i;
    }
  }

  // --- printing -----------------------------------------------------------

  /** The line numbers printed for one window, counted from one. */
  function Numbers(n: nat, w: Window): seq<int> {
    seq(Max(0, SliceEnd(n, w.end) - w.start), i => w.start + 1 + i)
  }

  function AllNumbers(n: nat, windows: seq<Window>): seq<int> {
    if windows == [] then []
    else AllNumbers(n, windows[..|windows| - 1]) + Numbers(n, windows[|windows| - 1])
  }

  lemma {:induction false} PrintedNumbers(n: nat, windows: seq<Window>, line: int)
    ensures line + 1 in AllNumbers(n, windows) <==> Printed(n, windows, line)
    decreases windows
  {
    if windows != [] {
      var init, last := windows[..|windows| - 1], windows[|windows| - 1];
      PrintedNumbers(n, init, line);
      AddLast(n, init, last);
      assert windows == init + [last];
      var own := Numbers(n, last);
      if InWindow(n, last, line) { assert own[line - last.start] == line + 1; }
    }
  }

  predicate Increasing(s: seq<int>) {
    forall i, j :: 0 <= i < j < |s| ==> s[i] < s[j]
  }

  /** Separated windows print every line at most once, in file order. */
  lemma {:induction false} NumbersIncrease(n: nat, windows: seq<Window>)
    requires Separated(n, windows)
    ensures Increasing(AllNumbers(n, windows))
    ensures forall i :: 0 <= i < |AllNumbers(n, windows)| ==> windows != [] && AllNumbers(n, windows)[i] <= windows[|windows| - 1].end
    decreases windows
  {
    if windows != [] {
      NumbersIncrease(n, windows[..|windows| - 1]);
    }
  }

  /** What the tool prints, as line numbers. */
  method PrintMatches(n: nat, indices: seq<nat>, context: int) returns (numbers: seq<int>)
    requires Ascending(n, indices)
    ensures context >= 0 ==> Increasing(numbers)
    ensures (forall line :: line + 1 in numbers <==> NearMatch(n, indices, context, line)) <==> ContextWorks(n, indices, context)
  {
    var merged := MergeWindows(n, indices, context);
    numbers := AllNumbers(n, merged);
    forall line ensures line + 1 in numbers <==> Printed(n, merged, line) {
      PrintedNumbers(n, merged, line);
    }
    if context >= 0 {
      NumbersIncrease(n, merged);
    } else {
      NegativeContext(n, indices, context, merged);
    }
  }

  /**
   When the printed lines are exactly those near a match: for every context size that is not negative; for
   a negative one if no window's end falls before the file, where it counts from the back, or if the size is
   so large that an end counted from the back still comes before the window's start.
   */
  predicate ContextWorks(n: nat, indices: seq<nat>, context: int) {
    context >= 0 || forall k :: 0 <= k < |indices| ==> indices[k] + context + 1 >= 0 || n + 2 * context + 1 <= 0
  }

  lemma NegativeContext(n: nat, indices: seq<nat>, context: int, windows: seq<Window>)
    requires Ascending(n, indices) && context < 0
    requires |windows| == |indices| && forall k :: 0 <= k < |indices| ==> windows[k] == WindowOf(n, context, indices[k])
    ensures (forall line :: Printed(n, windows, line) <==> NearMatch(n, indices, context, line)) <==> ContextWorks(n, indices, context)
  {
    if ContextWorks(n, indices, context) {
      forall line ensures !Printed(n, windows, line) {
        forall k | 0 <= k < |windows| ensures !InWindow(n, windows[k], line) {
          assert indices[k] + context + 1 >= 0 || n + 2 * context + 1 <= 0;
        }
      }
    } else {
      var k :| 0 <= k < |indices| && indices[k] + context + 1 < 0 && n + 2 * context + 1 > 0;
      var line := indices[k] - context;
      assert windows[k] == WindowOf(n, context, indices[k]);
      assert InWindow(n, windows[k], line);
      assert Printed(n, windows, line) && !NearMatch(n, indices, context, line);
    }
  }
}
