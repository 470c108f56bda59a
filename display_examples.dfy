/**
 * The display utilities on the strings of the reader's unit tests,
 * written as UTF-16 code units: "hello world" is 68 65 6C 6C 6F 20 77 6F 72 6C 64,
 * "你好世界" is 4F60 597D 4E16 754C.
 */
module DisplayExamples {
  import opened Display

  /** "Hello你好" is 5 + 4 wide. */
  lemma MixedWidth()
    ensures StringWidth([0x48, 0x65, 0x6C, 0x6C, 0x6F, 0x4F60, 0x597D]) == 9
  {}

  /** "第1章" is 2 + 1 + 2 wide. */
  lemma ChapterTitleWidth()
    ensures StringWidth([0x7B2C, 0x31, 0x7AE0]) == 5
  {}

  /** The tail " world" is six columns wide. */
  lemma WorldTailWidth()
    ensures StringWidth([0x20, 0x77, 0x6F, 0x72, 0x6C, 0x64]) == 6
  {}

  lemma HelloWorldWidth()
    ensures StringWidth([0x68, 0x65, 0x6C, 0x6C, 0x6F, 0x20, 0x77, 0x6F, 0x72, 0x6C, 0x64]) == 11
  {
    WorldTailWidth();
  }

  /** Five columns from the start of "hello world" give "hello". */
  lemma HelloWorldFirstFive()
    ensures Slice([0x68, 0x65, 0x6C, 0x6C, 0x6F, 0x20, 0x77, 0x6F, 0x72, 0x6C, 0x64], 0, 5)
         == Cut([0x68, 0x65, 0x6C, 0x6C, 0x6F], 5)
  {}

  /** Five columns from index 6 of "hello world" give "world". */
  lemma HelloWorldFromMiddle()
    ensures Slice([0x68, 0x65, 0x6C, 0x6C, 0x6F, 0x20, 0x77, 0x6F, 0x72, 0x6C, 0x64], 6, 5)
         == Cut([0x77, 0x6F, 0x72, 0x6C, 0x64], 11)
  {}

  /** Four columns of "你好世界" hold two ideographs. */
  lemma IdeographsFirstFour()
    ensures Slice([0x4F60, 0x597D, 0x4E16, 0x754C], 0, 4) == Cut([0x4F60, 0x597D], 2)
  {}

  /** One column cannot hold a wide character: the cut is empty and does not move. */
  lemma TooNarrowForIdeograph()
    ensures Slice([0x4E2D, 0x6587], 0, 1) == Cut([], 0)
  {}

  lemma EmptyCut()
    ensures Slice([], 0, 10) == Cut([], 0)
  {}

  /**
   * Six columns of "第1章 标题" hold "第1章" and the space after it (2 + 1 + 2 + 1),
   * so the cut ends at index 4.
   */
  lemma ChapterHeadingCut()
    ensures Slice([0x7B2C, 0x31, 0x7AE0, 0x20, 0x6807, 0x9898], 0, 6)
         == Cut([0x7B2C, 0x31, 0x7AE0, 0x20], 4)
  {}

  /** The cut of "第1章 标题" at six columns is not "第1章" ending at index 3. */
  lemma ChapterHeadingNotTitleOnly()
    ensures Slice([0x7B2C, 0x31, 0x7AE0, 0x20, 0x6807, 0x9898], 0, 6)
         != Cut([0x7B2C, 0x31, 0x7AE0], 3)
  {
    ChapterHeadingCut();
  }

  /** Stepping back five columns from the end of "hello world" lands on index 6. */
  lemma HelloWorldBackFive()
    ensures PrevIndex([0x68, 0x65, 0x6C, 0x6C, 0x6F, 0x20, 0x77, 0x6F, 0x72, 0x6C, 0x64], 11, 5) == 6
  {}

  lemma IdeographsBackFour()
    ensures PrevIndex([0x4F60, 0x597D, 0x4E16, 0x754C], 4, 4) == 2
  {}

  /** A budget wider than the text stops at the start. */
  lemma BackToStart()
    ensures PrevIndex([0x68, 0x65, 0x6C, 0x6C, 0x6F], 5, 10) == 0
  {}

  lemma HelloWorldBackFromMiddle()
    ensures PrevIndex([0x68, 0x65, 0x6C, 0x6C, 0x6F, 0x20, 0x77, 0x6F, 0x72, 0x6C, 0x64], 6, 3) == 3
  {}

  lemma ShortLineOneSegment()
    ensures GetSegmentCount([0x68, 0x65, 0x6C, 0x6C, 0x6F], 10) == 1
    ensures GetSegmentCount([0x68, 0x65, 0x6C, 0x6C, 0x6F], 5) == 1
  {}

  lemma HelloWorldTwoSegments()
    ensures GetSegmentCount([0x68, 0x65, 0x6C, 0x6C, 0x6F, 0x20, 0x77, 0x6F, 0x72, 0x6C, 0x64], 6) == 2
  {
    HelloWorldWidth();
  }

  lemma IdeographsTwoSegments()
    ensures GetSegmentCount([0x4F60, 0x597D, 0x4E16, 0x754C], 4) == 2
  {}

  lemma EmptyNoSegment()
    ensures GetSegmentCount([], 10) == 0
  {}

  lemma HelloWorldFirstSix()
    ensures Slice([0x68, 0x65, 0x6C, 0x6C, 0x6F, 0x20, 0x77, 0x6F, 0x72, 0x6C, 0x64], 0, 6).endCharIndex == 6
  {}

  /** The last of the two six-column segments of "hello world" starts at "world". */
  lemma HelloWorldLastSegment()
    ensures LastSegmentStart([0x68, 0x65, 0x6C, 0x6C, 0x6F, 0x20, 0x77, 0x6F, 0x72, 0x6C, 0x64], 6) == 6
  {
    HelloWorldTwoSegments();
    HelloWorldFirstSix();
  }

  lemma IdeographsLastSegment()
    ensures LastSegmentStart([0x4F60, 0x597D, 0x4E16, 0x754C], 4) == 2
  {
    IdeographsTwoSegments();
    IdeographsFirstFour();
  }

  lemma ShortLineLastSegment()
    ensures LastSegmentStart([0x68, 0x65, 0x6C, 0x6C, 0x6F], 10) == 0
  {
    ShortLineOneSegment();
  }

  lemma EmptyLastSegment()
    ensures LastSegmentStart([], 10) == 0
  {
    EmptyNoSegment();
  }
}
