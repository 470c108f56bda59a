/**
 * The page cursor of a book, as pure functions: one forward and one backward
 * step of the page-turn loops, the page turns themselves, and the segments
 * of the page shown at a cursor. The class `Books.Book` runs these loops on
 * its fields and is proved against the functions here.
 */
module Paging {
  import opened Types
  import opened Display

  /** A reading position: line `process` of the contents and code-unit `offset` within it. */
  datatype Cursor = Cursor(process: int, offset: nat)

  /** Reading order: an earlier line, or the same line and no later offset. */
  predicate AtOrBefore(a: Cursor, b: Cursor) {
    a.process < b.process || (a.process == b.process && a.offset <= b.offset)
  }

  /** `contents[p]` is defined. */
  predicate HasLine(contents: seq<Line>, p: int) {
    0 <= p < |contents|
  }

  /** A non-zero offset points into, or just past, an existing line. */
  predicate InLine(contents: seq<Line>, c: Cursor) {
    c.offset > 0 ==> HasLine(contents, c.process) && c.offset <= |contents[c.process]|
  }

  /**
   * What the backward step needs to find its line: the offset is within its
   * line, and a cursor at the start of a line has a defined line before it.
   */
  predicate PrevReady(contents: seq<Line>, c: Cursor) {
    InLine(contents, c) && c.process <= |contents|
  }

  // ---------------------------------------------------------------------
  // Forward
  // ---------------------------------------------------------------------

  /** Result of one forward step: a new cursor, no line under the cursor, or the end of the book. */
  datatype Step = Advanced(to: Cursor) | NoLine | AtEnd

  /**
   * One round of the next-page loop: slice the current line from the offset;
   * when the slice reaches the end of the line go to the start of the next
   * line (or report the end on the last line), otherwise stop where it ended.
   */
  function NextStep(contents: seq<Line>, c: Cursor, displayWidth: int): (r: Step)
    ensures r.NoLine? <==> !HasLine(contents, c.process)
    ensures r.Advanced? ==> AtOrBefore(c, r.to) && InLine(contents, r.to) && r.to.process < |contents|
    ensures r.Advanced? && r.to.process != c.process ==> r.to == Cursor(c.process + 1, 0)
  {
    if !HasLine(contents, c.process) then NoLine
    else
      var line := contents[c.process];
      var e := Slice(line, c.offset, displayWidth).endCharIndex;
      if e >= |line| then
        if c.process < |contents| - 1 then Advanced(Cursor(c.process + 1, 0)) else AtEnd
      else
        Advanced(Cursor(c.process, e))
  }

  /** `k` rounds of the next-page loop; the loop stops early on a missing line or at the end. */
  function NextSteps(contents: seq<Line>, c: Cursor, displayWidth: int, k: int): (r: Cursor)
    ensures AtOrBefore(c, r)
    ensures r.process <= c.process + (if k > 0 then k else 0)
    ensures r == c || r.process < |contents|
    ensures InLine(contents, c) ==> InLine(contents, r)
    decreases k
  {
    if k <= 0 then c
    else
      match NextStep(contents, c, displayWidth)
      case Advanced(to) => NextSteps(contents, to, displayWidth, k - 1)
      case _ => c
  }

  /** Outcome of a page turn: the new cursor, or the boundary that stopped it. */
  datatype PageTurn = Turned(to: Cursor) | FirstPage | LastPage

  /**
   * The next page: `displayLines` forward steps, except that a first step
   * that finds the end of the book leaves the cursor where it is.
   */
  function NextPage(contents: seq<Line>, c: Cursor, displayWidth: int, displayLines: int): (r: PageTurn)
    ensures !r.FirstPage?
    ensures r.Turned? ==> AtOrBefore(c, r.to)
    ensures r.Turned? ==> r.to.process <= c.process + (if displayLines > 0 then displayLines else 0)
    ensures r.Turned? ==> r.to == c || r.to.process <= |contents| - 1
    ensures r.Turned? && InLine(contents, c) ==> InLine(contents, r.to)
  {
    if displayLines > 0 && NextStep(contents, c, displayWidth).AtEnd? then LastPage
    else Turned(NextSteps(contents, c, displayWidth, displayLines))
  }

  /** The last page is reported exactly when the rest of the last line fits one slice. */
  lemma LastPageIff(contents: seq<Line>, c: Cursor, displayWidth: int, displayLines: int)
    ensures NextPage(contents, c, displayWidth, displayLines).LastPage? <==>
      displayLines > 0 && c.process == |contents| - 1 && HasLine(contents, c.process) &&
      Slice(contents[c.process], c.offset, displayWidth).endCharIndex >= |contents[c.process]|
  {
  }

  /**
   * A page turn that is not stopped by the end moves strictly forward when
   * the character under the cursor fits the budget.
   */
  lemma NextPageAdvances(contents: seq<Line>, c: Cursor, displayWidth: int, displayLines: int)
    requires displayLines > 0 && HasLine(contents, c.process)
    requires c.offset < |contents[c.process]| ==> CharWidth(contents[c.process][c.offset]) <= displayWidth
    ensures var r := NextPage(contents, c, displayWidth, displayLines);
      r.LastPage? || (r.Turned? && r.to != c)
  {
    var line := contents[c.process];
    SliceFits(line, c.offset, displayWidth);
    match NextStep(contents, c, displayWidth)
    case Advanced(to) =>
      assert to != c;
      var r := NextSteps(contents, to, displayWidth, displayLines - 1);
      assert NextSteps(contents, c, displayWidth, displayLines) == r;
    case AtEnd =>
    case NoLine =>
  }

  // ---------------------------------------------------------------------
  // Backward
  // ---------------------------------------------------------------------

  /**
   * One round of the previous-page loop: step back by the budget within the
   * line, or from a line start go to the start of the last segment of the
   * line before; at the start of the book there is no step.
   */
  function PrevStep(contents: seq<Line>, c: Cursor, displayWidth: int): (r: Option<Cursor>)
    requires displayWidth > 0 && PrevReady(contents, c)
    ensures r.None? <==> c.offset == 0 && c.process <= 0
    ensures r.Some? ==> AtOrBefore(r.value, c) && r.value != c
    ensures r.Some? ==> r.value.process >= c.process - 1 && PrevReady(contents, r.value)
  {
    if c.offset > 0 then
      PrevIndexStays(contents[c.process], c.offset, displayWidth);
      Some(Cursor(c.process, PrevIndex(contents[c.process], c.offset, displayWidth)))
    else if c.process > 0 then
      Some(Cursor(c.process - 1, LastSegmentStart(contents[c.process - 1], displayWidth)))
    else
      None
  }

  /** `k` rounds of the previous-page loop; the loop stops early at the start of the book. */
  function PrevSteps(contents: seq<Line>, c: Cursor, displayWidth: int, k: int): (r: Cursor)
    requires displayWidth > 0 && PrevReady(contents, c)
    ensures AtOrBefore(r, c) && PrevReady(contents, r)
    ensures r.process >= c.process - (if k > 0 then k else 0)
    ensures k > 0 && !(c.offset == 0 && c.process <= 0) ==> r != c
    decreases k
  {
    if k <= 0 then c
    else
      match PrevStep(contents, c, displayWidth)
      case Some(p) => PrevSteps(contents, p, displayWidth, k - 1)
      case None => c
  }

  /**
   * The previous page: `displayLines` backward steps, except that a cursor
   * already at the start of the book reports the first page.
   */
  function PrevPage(contents: seq<Line>, c: Cursor, displayWidth: int, displayLines: int): (r: PageTurn)
    requires displayWidth > 0 && PrevReady(contents, c)
    ensures !r.LastPage?
    ensures r.FirstPage? <==> displayLines > 0 && c.offset == 0 && c.process <= 0
    ensures r.Turned? ==> AtOrBefore(r.to, c) && PrevReady(contents, r.to)
    ensures r.Turned? ==> r.to.process >= c.process - (if displayLines > 0 then displayLines else 0)
    ensures r.Turned? && displayLines > 0 ==> r.to != c
  {
    if displayLines > 0 && PrevStep(contents, c, displayWidth).None? then FirstPage
    else Turned(PrevSteps(contents, c, displayWidth, displayLines))
  }

  /**
   * The next-page loop: up to `displayLines` rounds from `c`, leaving early on
   * a missing line, and reporting the last page when the first round finds
   * the end of the book.
   */
  method TurnForward(contents: seq<Line>, c: Cursor, displayWidth: int, displayLines: int) returns (r: PageTurn)
    ensures r == NextPage(contents, c, displayWidth, displayLines)
  {
    var currentProcess := c.process;
    var currentOffset := c.offset;
    var i := 0;
    while i < displayLines
      invariant 0 <= i && (displayLines > 0 ==> i <= displayLines)
      invariant i == 0 ==> Cursor(currentProcess, currentOffset) == c
      invariant i > 0 ==> NextStep(contents, c, displayWidth).Advanced?
      invariant NextSteps(contents, Cursor(currentProcess, currentOffset), displayWidth, displayLines - i)
             == NextSteps(contents, c, displayWidth, displayLines)
    {
      ghost var cur := Cursor(currentProcess, currentOffset);
      if !HasLine(contents, currentProcess) {
        break;
      }
      var line := contents[currentProcess];
      var cut := SubstringByDisplayWidth(line, currentOffset, displayWidth);
      if cut.endCharIndex >= |line| {
        if currentProcess < |contents| - 1 {
          currentProcess := currentProcess + 1;
          currentOffset := 0;
        } else {
          if i == 0 {
            return LastPage;
          }
          break;
        }
      } else {
        currentOffset := cut.endCharIndex;
      }
      assert NextStep(contents, cur, displayWidth) == Advanced(Cursor(currentProcess, currentOffset));
      i := i + 1;
    }
    return Turned(Cursor(currentProcess, currentOffset));
  }

  /**
   * The body of the previous-page loop: step back by the budget within the
   * line, or go to the last segment of the line before; `None` at the start
   * of the book.
   */
  method StepBack(contents: seq<Line>, c: Cursor, displayWidth: int) returns (r: Option<Cursor>)
    requires displayWidth > 0 && PrevReady(contents, c)
    ensures r == PrevStep(contents, c, displayWidth)
  {
    if c.offset > 0 {
      var line := contents[c.process];
      var offset := GetPrevCharIndexByDisplayWidth(line, c.offset, displayWidth);
      return Some(Cursor(c.process, offset));
    } else if c.process > 0 {
      var prevLine := contents[c.process - 1];
      var offset := GetLastSegmentCharIndex(prevLine, displayWidth);
      return Some(Cursor(c.process - 1, offset));
    }
    return None;
  }

  /**
   * The previous-page loop: up to `displayLines` rounds back from `c`, leaving
   * early at the start of the book, and reporting the first page when the
   * first round is already there.
   */
  method TurnBack(contents: seq<Line>, c: Cursor, displayWidth: int, displayLines: int) returns (r: PageTurn)
    requires displayWidth > 0 && PrevReady(contents, c)
    ensures r == PrevPage(contents, c, displayWidth, displayLines)
  {
    var currentProcess := c.process;
    var currentOffset := c.offset;
    var i := 0;
    while i < displayLines
      invariant 0 <= i && (displayLines > 0 ==> i <= displayLines)
      invariant i == 0 ==> Cursor(currentProcess, currentOffset) == c
      invariant PrevReady(contents, Cursor(currentProcess, currentOffset))
      invariant i > 0 ==> PrevStep(contents, c, displayWidth).Some?
      invariant PrevSteps(contents, Cursor(currentProcess, currentOffset), displayWidth, displayLines - i)
             == PrevSteps(contents, c, displayWidth, displayLines)
    {
      var step := StepBack(contents, Cursor(currentProcess, currentOffset), displayWidth);
      if step.None? {
        if i == 0 {
          return FirstPage;
        }
        break;
      }
      currentProcess := step.value.process;
      currentOffset := step.value.offset;
      i := i + 1;
    }
    return Turned(Cursor(currentProcess, currentOffset));
  }

  /**
   * Turning one row forward within a line and then one row back never skips
   * text: the cursor comes back to the starting point or before it.
   */
  lemma BackAfterForward(contents: seq<Line>, c: Cursor, displayWidth: int)
    requires displayWidth > 0 && PrevReady(contents, c) && HasLine(contents, c.process)
    ensures var f := NextPage(contents, c, displayWidth, 1);
      f.Turned? && f.to.process == c.process ==>
        var b := PrevPage(contents, f.to, displayWidth, 1);
        b.FirstPage? || (b.Turned? && AtOrBefore(b.to, c))
  {
    var f := NextPage(contents, c, displayWidth, 1);
    if f.Turned? && f.to.process == c.process && f.to != c {
      var line := contents[c.process];
      assert f.to.offset == Slice(line, c.offset, displayWidth).endCharIndex;
      BackThenForward(line, c.offset, displayWidth);
    }
  }

  /**
   * Turning one row back within a line and then one row forward never runs
   * past the starting point, while the cursor is inside its line.
   */
  lemma ForwardAfterBackPage(contents: seq<Line>, c: Cursor, displayWidth: int)
    requires displayWidth > 0 && HasLine(contents, c.process) && c.offset < |contents[c.process]|
    ensures var b := PrevPage(contents, c, displayWidth, 1);
      b.Turned? && b.to.process == c.process && b.to.offset > 0 ==>
        var f := NextPage(contents, b.to, displayWidth, 1);
        f.Turned? && AtOrBefore(f.to, c)
  {
    var b := PrevPage(contents, c, displayWidth, 1);
    if b.Turned? && b.to.process == c.process && b.to.offset > 0 {
      var line := contents[c.process];
      assert b.to.offset == PrevIndex(line, c.offset, displayWidth);
      ForwardAfterBack(line, c.offset, displayWidth);
      assert NextStep(contents, b.to, displayWidth).Advanced?;
    }
  }

  // ---------------------------------------------------------------------
  // The page shown at a cursor
  // ---------------------------------------------------------------------

  const Space: CodeUnit := 0x20

  /**
   * The segments of a page separated by single spaces: no segment gives no
   * text, and one segment gives itself.
   */
  function Join(segments: seq<Line>): (r: Line)
    ensures segments == [] ==> r == []
    ensures |segments| == 1 ==> r == segments[0]
  {
    if |segments| == 0 then []
    else if |segments| == 1 then segments[0]
    else segments[0] + [Space] + Join(segments[1..])
  }

  /** Appending a segment to a non-empty page adds one space and the segment. */
  lemma {:induction false} JoinSnoc(segments: seq<Line>, s: Line)
    ensures Join(segments + [s]) == if segments == [] then s else Join(segments) + [Space] + s
    decreases |segments|
  {
    if |segments| == 1 {
      assert (segments + [s])[1..] == [s];
    } else if |segments| > 1 {
      assert (segments + [s])[1..] == segments[1..] + [s];
      JoinSnoc(segments[1..], s);
    }
  }

  /** Every character of every line fits the budget, so the page loop always makes progress. */
  ghost predicate EveryCharFits(contents: seq<Line>, displayWidth: int) {
    forall p, k :: 0 <= p < |contents| && 0 <= k < |contents[p]| ==> CharWidth(contents[p][k]) <= displayWidth
  }

  /** A budget of two columns fits every character. */
  lemma WideBudgetFits(contents: seq<Line>, displayWidth: int)
    requires displayWidth >= 2
    ensures EveryCharFits(contents, displayWidth)
  {
  }

  /** State of the page-assembly loop: segments so far, slots used, and the line and offset reached. */
  datatype Collecting = Collecting(segments: seq<Line>, collected: int, process: int, offset: nat)

  /**
   * One round of the page-assembly loop (entered while slots remain and the
   * line index is below the end): a missing or empty line uses a slot and
   * moves to the next line; otherwise a non-empty slice from the offset is
   * added and uses a slot, and the cursor moves past it (to the next line
   * when the slice reached the end of this one).
   */
  function PageStep(contents: seq<Line>, displayWidth: int, st: Collecting): (r: Collecting)
    requires st.process < |contents|
    ensures st.segments <= r.segments && |r.segments| <= |st.segments| + 1
    ensures r.collected - st.collected == (if st.process < 0 || |contents[st.process]| == 0 then 1 else |r.segments| - |st.segments|)
    ensures r.process == st.process || (r.process == st.process + 1 && r.offset == 0)
  {
    if st.process < 0 || |contents[st.process]| == 0 then
      Collecting(st.segments, st.collected + 1, st.process + 1, 0)
    else
      var line := contents[st.process];
      var cut := Slice(line, st.offset, displayWidth);
      var segments := if cut.text != [] then st.segments + [cut.text] else st.segments;
      var collected := if cut.text != [] then st.collected + 1 else st.collected;
      if cut.endCharIndex >= |line| then Collecting(segments, collected, st.process + 1, 0)
      else Collecting(segments, collected, st.process, cut.endCharIndex)
  }

  /** Code units left on the current line after the offset. */
  function Rest(contents: seq<Line>, st: Collecting): nat {
    if HasLine(contents, st.process) && st.offset < |contents[st.process]| then
      |contents[st.process]| - st.offset
    else 0
  }

  /** When every character fits, each round moves to a later line or further along the same one. */
  lemma PageStepProgress(contents: seq<Line>, displayWidth: int, st: Collecting)
    requires EveryCharFits(contents, displayWidth) && st.process < |contents|
    ensures var r := PageStep(contents, displayWidth, st);
      r.process == st.process + 1 ||
      (r.process == st.process && Rest(contents, r) < Rest(contents, st))
  {
    if 0 <= st.process && |contents[st.process]| != 0 {
      var line := contents[st.process];
      SliceFits(line, st.offset, displayWidth);
      if st.offset < |line| {
        assert CharWidth(line[st.offset]) <= displayWidth;
      }
    }
  }

  /** A character wider than the budget under the cursor makes a round change nothing: the loop spins. */
  lemma PageStepStallsOnWideChar(contents: seq<Line>, displayWidth: int, st: Collecting)
    requires HasLine(contents, st.process) && st.offset < |contents[st.process]|
    requires CharWidth(contents[st.process][st.offset]) > displayWidth
    ensures PageStep(contents, displayWidth, st) == st
  {
    SliceFits(contents[st.process], st.offset, displayWidth);
  }

  /** Runs the page-assembly loop to its end and yields the collected segments. */
  function CollectFrom(contents: seq<Line>, displayWidth: int, displayLines: int, st: Collecting): (r: seq<Line>)
    requires EveryCharFits(contents, displayWidth)
    ensures st.segments <= r
    ensures st.collected >= displayLines || st.process >= |contents| ==> r == st.segments
    decreases |contents| - st.process, Rest(contents, st)
  {
    if st.collected < displayLines && st.process < |contents| then
      PageStepProgress(contents, displayWidth, st);
      CollectFrom(contents, displayWidth, displayLines, PageStep(contents, displayWidth, st))
    else
      st.segments
  }

  /** A round on a non-empty line, field by field. */
  lemma PageStepOnLine(contents: seq<Line>, displayWidth: int, st: Collecting)
    requires 0 <= st.process < |contents| && |contents[st.process]| != 0
    ensures var line := contents[st.process];
      var cut := Slice(line, st.offset, displayWidth);
      var r := PageStep(contents, displayWidth, st);
      && r.segments == (if cut.text != [] then st.segments + [cut.text] else st.segments)
      && r.collected == (if cut.text != [] then st.collected + 1 else st.collected)
      && r.process == (if cut.endCharIndex >= |line| then st.process + 1 else st.process)
      && r.offset == (if cut.endCharIndex >= |line| then 0 else cut.endCharIndex)
  {
  }

  /** While slots and lines remain, the loop's result is that of the state after one more round. */
  lemma CollectUnfold(contents: seq<Line>, displayWidth: int, displayLines: int, st: Collecting)
    requires EveryCharFits(contents, displayWidth)
    requires st.collected < displayLines && st.process < |contents|
    ensures CollectFrom(contents, displayWidth, displayLines, st)
         == CollectFrom(contents, displayWidth, displayLines, PageStep(contents, displayWidth, st))
  {
  }

  /** The segments of the page that starts at `c`. */
  function Page(contents: seq<Line>, c: Cursor, displayWidth: int, displayLines: int): (r: seq<Line>)
    requires EveryCharFits(contents, displayWidth)
    ensures displayLines <= 0 || c.process >= |contents| ==> r == []
  {
    CollectFrom(contents, displayWidth, displayLines, Collecting([], 0, c.process, c.offset))
  }

  /** Segments that are non-empty and fit the budget. */
  ghost predicate Fitting(segments: seq<Line>, displayWidth: int) {
    forall k :: 0 <= k < |segments| ==> segments[k] != [] && Width(segments[k]) <= displayWidth
  }

  /**
   * The loop keeps the segments it has, adds only non-empty fitting ones, and
   * adds no more than the slots it has left.
   */
  lemma {:induction false} CollectShape(contents: seq<Line>, displayWidth: int, displayLines: int, st: Collecting)
    requires EveryCharFits(contents, displayWidth) && Fitting(st.segments, displayWidth)
    ensures var r := CollectFrom(contents, displayWidth, displayLines, st);
      && st.segments <= r
      && Fitting(r, displayWidth)
      && |r| <= |st.segments| + (if displayLines > st.collected then displayLines - st.collected else 0)
    decreases |contents| - st.process, Rest(contents, st)
  {
    if st.collected < displayLines && st.process < |contents| {
      PageStepProgress(contents, displayWidth, st);
      var next := PageStep(contents, displayWidth, st);
      if 0 <= st.process && |contents[st.process]| != 0 {
        SliceFits(contents[st.process], st.offset, displayWidth);
      }
      assert st.segments <= next.segments;
      assert Fitting(next.segments, displayWidth);
      assert |next.segments| - |st.segments| <= next.collected - st.collected <= 1;
      CollectShape(contents, displayWidth, displayLines, next);
    }
  }

  /**
   * A page holds at most `displayLines` segments, each non-empty and within
   * `displayWidth` columns.
   */
  lemma PageShape(contents: seq<Line>, c: Cursor, displayWidth: int, displayLines: int)
    requires EveryCharFits(contents, displayWidth)
    ensures var segs := Page(contents, c, displayWidth, displayLines);
      |segs| <= (if displayLines > 0 then displayLines else 0) && Fitting(segs, displayWidth)
  {
    CollectShape(contents, displayWidth, displayLines, Collecting([], 0, c.process, c.offset));
  }

  /** A page starting inside a line opens with the slice of that line from the cursor. */
  lemma PageStartsAtCursor(contents: seq<Line>, c: Cursor, displayWidth: int, displayLines: int)
    requires EveryCharFits(contents, displayWidth) && displayLines > 0
    requires HasLine(contents, c.process) && c.offset < |contents[c.process]|
    ensures var segs := Page(contents, c, displayWidth, displayLines);
      segs != [] && segs[0] == Slice(contents[c.process], c.offset, displayWidth).text
  {
    var st := Collecting([], 0, c.process, c.offset);
    var line := contents[c.process];
    SliceFits(line, c.offset, displayWidth);
    assert CharWidth(line[c.offset]) <= displayWidth;
    var next := PageStep(contents, displayWidth, st);
    assert next.segments == [Slice(line, c.offset, displayWidth).text];
    PageStepProgress(contents, displayWidth, st);
    CollectShape(contents, displayWidth, displayLines, next);
  }
}
