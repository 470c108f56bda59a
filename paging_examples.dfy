/**
 * Pages for the list of lines "第一章", "", "第二章": at three rows of 20
 * columns, and at the default settings.
 */
module PagingExamples {
  import opened Types
  import opened Display
  import opened Paging

  /** The empty line uses a slot but adds no text, so the page is "第一章 第二章". */
  lemma EmptyLineUsesSlot()
    ensures var contents: seq<Line> := [[0x7B2C, 0x4E00, 0x7AE0], [], [0x7B2C, 0x4E8C, 0x7AE0]];
      EveryCharFits(contents, 20) &&
      Join(Page(contents, Cursor(0, 0), 20, 3)) == [0x7B2C, 0x4E00, 0x7AE0, 0x20, 0x7B2C, 0x4E8C, 0x7AE0]
  {
    var contents: seq<Line> := [[0x7B2C, 0x4E00, 0x7AE0], [], [0x7B2C, 0x4E8C, 0x7AE0]];
    WideBudgetFits(contents, 20);
    var s0 := Collecting([], 0, 0, 0);
    assert Slice(contents[0], 0, 20) == Cut(contents[0], 3);
    var s1 := PageStep(contents, 20, s0);
    assert s1 == Collecting([contents[0]], 1, 1, 0);
    var s2 := PageStep(contents, 20, s1);
    assert s2 == Collecting([contents[0]], 2, 2, 0);
    assert Slice(contents[2], 0, 20) == Cut(contents[2], 3);
    var s3 := PageStep(contents, 20, s2);
    assert s3 == Collecting([contents[0], contents[2]], 3, 3, 0);
    assert CollectFrom(contents, 20, 3, s0) == [contents[0], contents[2]];
  }

  /** At the default settings (45 columns, one row) the page is the first line alone. */
  lemma DefaultPageIsFirstLine()
    ensures var contents: seq<Line> := [[0x7B2C, 0x4E00, 0x7AE0], [], [0x7B2C, 0x4E8C, 0x7AE0]];
      EveryCharFits(contents, DefaultDisplayWidth) &&
      Page(contents, Cursor(0, 0), DefaultDisplayWidth, DefaultDisplayLines) == [[0x7B2C, 0x4E00, 0x7AE0]]
  {
    var contents: seq<Line> := [[0x7B2C, 0x4E00, 0x7AE0], [], [0x7B2C, 0x4E8C, 0x7AE0]];
    WideBudgetFits(contents, DefaultDisplayWidth);
    var st := Collecting([], 0, 0, 0);
    assert Slice(contents[0], 0, DefaultDisplayWidth) == Cut(contents[0], 3);
    assert PageStep(contents, DefaultDisplayWidth, st) == Collecting([contents[0]], 1, 1, 0);
  }
}
