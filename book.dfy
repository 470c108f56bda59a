/**
 * One open book: its persisted entry, its parsed lines, and the reading
 * and initialisation flags. The page turns run the loops whose rounds are
 * the functions of `Paging`, and are proved against those functions.
 */
module Books {
  import opened Types
  import opened Display
  import opened Paging

  /** Result of a page-turn or jump command; the boundary cases stand for the messages shown. */
  datatype MoveResult = Moved | NotReadable | AtFirstPage | AtLastPage | InvalidPage

  class Book {
    var book: BookData
    var contents: seq<Line>
    var isReading: bool
    var initialized: bool

    /** After a successful load the cursor's line index is below the number of lines. */
    ghost predicate Valid()
      reads this
    {
      initialized ==> book.process < |contents|
    }

    /** The reading position; an absent offset reads as 0. */
    function Position(): Cursor
      reads this
    {
      Cursor(book.process, book.offset.GetOr(0))
    }

    /**
     * Page turns and jumps act only while reading a successfully loaded book;
     * the line index of a readable valid book is below the number of lines.
     */
    predicate CheckReadable(): (r: bool)
      reads this
      ensures !isReading ==> !r
      ensures !initialized ==> !r
      ensures r && Valid() ==> book.process < |contents|
    {
      isReading && initialized
    }

    /** A new book reads from the given entry with a missing offset set to 0; it is not loaded yet. */
    constructor(data: BookData)
      ensures book == data.(offset := Some(data.offset.GetOr(0)))
      ensures contents == [] && isReading && !initialized
      ensures Valid()
    {
      book := data.(offset := Some(data.offset.GetOr(0)));
      contents := [];
      isReading := true;
      initialized := false;
    }

    /**
     * Completion of loading: `parsed` is the file's lines, or `None` when
     * parsing failed. The line index is clamped to the last line (to -1 for
     * an empty book) and a missing offset becomes 0.
     */
    method Init(parsed: Option<seq<Line>>)
      modifies this`book, this`contents, this`initialized
      ensures parsed.None? ==> book == old(book) && contents == old(contents) && !initialized
      ensures parsed.Some? ==>
        var lines := parsed.value;
        && contents == lines
        && book == old(book).(process := Min(old(book).process, |lines| - 1),
                              offset := Some(old(book).offset.GetOr(0)))
        && initialized
      ensures Valid()
    {
      match parsed
      case None =>
        initialized := false;
      case Some(lines) =>
        contents := lines;
        book := book.(process := Min(book.process, |contents| - 1));
        book := book.(offset := Some(book.offset.GetOr(0)));
        initialized := true;
    }

    /**
     * Turns back by `displayLines` rows of `displayWidth` columns. At the
     * start of the book it reports the first page and leaves the position.
     */
    method PrevLine(displayWidth: int, displayLines: int) returns (r: MoveResult)
      requires Valid()
      requires CheckReadable() ==> displayWidth > 0 && PrevReady(contents, Position())
      modifies this`book
      ensures Valid()
      ensures !old(CheckReadable()) ==> r == NotReadable && book == old(book)
      ensures old(CheckReadable()) ==>
        match PrevPage(contents, old(Position()), displayWidth, displayLines)
        case Turned(to) => r == Moved && book == old(book).(process := to.process, offset := Some(to.offset))
        case _ => r == AtFirstPage && book == old(book)
    {
      if !CheckReadable() {
        return NotReadable;
      }
      var turn := TurnBack(contents, Position(), displayWidth, displayLines);
      if turn.Turned? {
        book := book.(process := turn.to.process, offset := Some(turn.to.offset));
        r := Moved;
      } else {
        r := AtFirstPage;
      }
    }

    /**
     * Turns forward by `displayLines` rows of `displayWidth` columns. When
     * the first row already reaches the end of the last line it reports the
     * last page and leaves the position.
     */
    method NextLine(displayWidth: int, displayLines: int) returns (r: MoveResult)
      requires Valid()
      modifies this`book
      ensures Valid()
      ensures !old(CheckReadable()) ==> r == NotReadable && book == old(book)
      ensures old(CheckReadable()) ==>
        match NextPage(contents, old(Position()), displayWidth, displayLines)
        case Turned(to) => r == Moved && book == old(book).(process := to.process, offset := Some(to.offset))
        case _ => r == AtLastPage && book == old(book)
    {
      if !CheckReadable() {
        return NotReadable;
      }
      var turn := TurnForward(contents, Position(), displayWidth, displayLines);
      if turn.Turned? {
        book := book.(process := turn.to.process, offset := Some(turn.to.offset));
        r := Moved;
      } else {
        r := AtLastPage;
      }
    }

    /** Jumps to the start of line `process`; an index outside the book is reported and ignored. */
    method JumpLine(process: int) returns (r: MoveResult)
      requires Valid()
      modifies this`book
      ensures Valid()
      ensures !old(CheckReadable()) ==> r == NotReadable && book == old(book)
      ensures old(CheckReadable()) && !HasLine(contents, process) ==> r == InvalidPage && book == old(book)
      ensures old(CheckReadable()) && HasLine(contents, process) ==>
        r == Moved && book == old(book).(process := process, offset := Some(0)) && Position() == Cursor(process, 0)
    {
      if !CheckReadable() {
        return NotReadable;
      }
      if process < 0 || process >= |contents| {
        return InvalidPage;
      }
      book := book.(process := process, offset := Some(0));
      return Moved;
    }

    /**
     * Assembles the text of the page at the current position: up to
     * `displayLines` rows joined by single spaces, an empty line taking a row
     * and adding no text. Reads the book and changes nothing.
     */
    method UpdateDisplay(displayWidth: int, displayLines: int) returns (content: Line)
      requires EveryCharFits(contents, displayWidth)
      ensures content == Join(Page(contents, Position(), displayWidth, displayLines))
    {
      var offset := book.offset.GetOr(0);
      content := [];
      var currentProcess := book.process;
      var currentOffset := offset;
      var linesCollected := 0;
      ghost var segments: seq<Line> := [];
      ghost var page := Page(contents, Position(), displayWidth, displayLines);
      while linesCollected < displayLines && currentProcess < |contents|
        invariant CollectFrom(contents, displayWidth, displayLines, Collecting(segments, linesCollected, currentProcess, currentOffset)) == page
        invariant content == Join(segments)
        invariant content == [] <==> segments == []
        decreases |contents| - currentProcess, Rest(contents, Collecting(segments, linesCollected, currentProcess, currentOffset))
      {
        ghost var st := Collecting(segments, linesCollected, currentProcess, currentOffset);
        ghost var next := PageStep(contents, displayWidth, st);
        PageStepProgress(contents, displayWidth, st);
        CollectUnfold(contents, displayWidth, displayLines, st);
        if currentProcess < 0 || |contents[currentProcess]| == 0 {
          linesCollected := linesCollected + 1;
          currentProcess := currentProcess + 1;
          currentOffset := 0;
          assert Collecting(segments, linesCollected, currentProcess, currentOffset) == next;
          continue;
        }
        PageStepOnLine(contents, displayWidth, st);
        var line := contents[currentProcess];
        var cut := SubstringByDisplayWidth(line, currentOffset, displayWidth);
        if cut.text != [] {
          JoinSnoc(segments, cut.text);
          content := content + (if content != [] then [Space] else []) + cut.text;
          segments := segments + [cut.text];
          linesCollected := linesCollected + 1;
        }
        if cut.endCharIndex >= |line| {
          currentProcess := currentProcess + 1;
          currentOffset := 0;
        } else {
          currentOffset := cut.endCharIndex;
          if linesCollected >= displayLines {
            break;
          }
        }
        assert Collecting(segments, linesCollected, currentProcess, currentOffset) == next;
      }
    }

    /** Stops reading. */
    method Pause()
      modifies this`isReading
      ensures !isReading && !CheckReadable()
    {
      isReading := false;
    }

    /** Resumes reading. */
    method Start()
      modifies this`isReading
      ensures isReading && CheckReadable() == initialized
    {
      isReading := true;
    }
  }

  /** The smaller of two integers. */
  function Min(a: int, b: int): (m: int)
    ensures m <= a && m <= b
    ensures m == a || m == b
  {
    if a <= b then a else b
  }
}
