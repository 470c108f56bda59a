# GhostReader pagination core in Dafny

GhostReader shows a plain-text book in the editor's status bar, one "page" at a time. A page is
up to `displayLines` rows, and each row holds at most `displayWidth` columns. Wide characters
(CJK ideographs, kana, Hangul, full-width forms) take two columns. Every other character takes one.
This project models that pagination core and proves properties of it.

- `types.dfy` (module `Types`): `Option`, the persisted book record `BookData` (id, name, line
  index `process`, optional character offset `offset`, file path `url`), and the default width
  and line count (45 and 1).
- `display.dfy` (module `Display`): the width utilities of `src/utils/display.ts`. The classifier
  and the segment count are functions. The four loops are methods, each proved equal to a
  recursive specification function (`StringWidth`, `Slice`, `PrevIndex`, `LastSegmentStart`).
  Lemmas prove the properties of those functions.
- `paging.dfy` (module `Paging`): the page cursor `(process, offset)`.
  - `NextStep`/`NextPage` and `PrevStep`/`PrevPage` describe the loops of `nextLine` and `prevLine`.
  - `PageStep`/`CollectFrom`/`Page` describe the loop of `updateDisplay`.
  - The methods `TurnForward` and `TurnBack` run the page-turn loops and are proved equal to those
    functions.
- `book.dfy` (module `Books`): class `Book`. It holds the fields `book`, `contents`, `isReading`
  and `initialized`, and its methods update them as the source does.
- `book_manager.dfy` (module `Manager`): class `BookManager`. It holds the `books` list and the
  delete, update-progress, append and load operations.
- `display_examples.dfy`, `paging_examples.dfy`: the documented examples of the width utilities
  and of page assembly, proved as lemmas.

Text is a sequence of UTF-16 code units (`CodeUnit`, 0 to 0xFFFF), because the source indexes
strings with `str[i]` and `str.length`.

Two measures of width appear, because the source has two:
- `Width` adds the width of every code unit. Slicing and stepping back use this measure.
- `StringWidth` follows `getStringDisplayWidth`, which iterates with `for..of`, that is by code
  point. A well-formed surrogate pair is one character there. Its width is computed from its
  high surrogate, so it is 1.

`StringWidthWithoutPairs` proves that the two measures agree on text without surrogate pairs.
So `getStringDisplayWidth` iterates by code point, while slicing and stepping back index code
units; the model keeps both, as the code does.

The clamp in `init` (`Math.min(process, contents.length - 1)`) gives -1 for an empty book, so
the model lets `process` be -1. A line index outside the book reads as a missing line, as
`contents[i]` is `undefined` in the source.

`getSegmentCount` divides total width by the budget. Greedy slicing can need more slices than
that, so `getLastSegmentCharIndex` does not always return the start of the final slice. The
lemma `Display.LastSegmentStartNotFinal` exhibits this for `a中a中` at width 2: the count is 3,
the "last segment" starts at 2, and the slice from there ends at 3 of 4. The model keeps this
behaviour, as `prevLine` relies on it.

## Model

| member | source | states |
|---|---|---|
| Display.CharWidth | src/utils/display.ts:10-27 | the width of a code unit is 1 or 2 |
| Display.CharWidthTable | src/utils/display.ts:13-26 | width 2 exactly when the code unit lies in one of the nine inclusive wide ranges, 1 otherwise |
| Display.CharWidthExamples | test/display.test.ts:12-35 | 'a', 'Z', '0' and ' ' are narrow; 中, あ, ア, 。, ，and ！ are wide |
| Display.Width | src/utils/display.ts:56-67 | the per-code-unit width of a line lies between its length and twice its length |
| Display.StringWidth | src/utils/display.ts:32-38 | the width by code point is at most the per-code-unit width, and is positive for non-empty text |
| Display.StringWidthWithoutPairs | src/utils/display.ts:34 | without surrogate pairs, iterating by code point gives the same sum as iterating by code unit |
| Display.GetStringDisplayWidth | src/utils/display.ts:32-38 | the loop returns the code-point width sum `StringWidth` |
| Display.Slice | src/utils/display.ts:47-71 | from a start within the line the cut is the text between start and end, with start ≤ end ≤ length; past the end it is empty and ends at the start |
| Display.SliceFits | src/utils/display.ts:56-68 | the cut fits the budget; when it stops before the end, the next character would exceed the budget (no wide character is half-taken, the cut is maximal); it takes nothing exactly when the first character does not fit |
| Display.SubstringByDisplayWidth | src/utils/display.ts:47-71 | the greedy loop returns `Slice` |
| Display.PrevIndex | src/utils/display.ts:76-90 | stepping back never moves past the start index |
| Display.PrevIndexStays | src/utils/display.ts:84 | the step back stays put exactly when the index is 0 or the budget is not positive |
| Display.PrevIndexPassesBudget | src/utils/display.ts:84-89 | the step back reaches 0 or passes at least the budget's width |
| Display.PrevIndexTight | src/utils/display.ts:84-89 | it overshoots by less than the last character passed: without that character the width is below the budget |
| Display.GetPrevCharIndexByDisplayWidth | src/utils/display.ts:76-90 | the backward loop returns `PrevIndex` |
| Display.BackThenForward | src/utils/display.ts:56-87 | stepping back from a slice's end returns to at or before the slice's start, so no text is skipped |
| Display.ForwardAfterBack | src/utils/display.ts:56-87 | slicing forward from a step back that did not reach 0 does not run past the original index |
| Display.GetSegmentCount | src/utils/display.ts:95-98 | a string has no more segments than its width |
| Display.SegmentCountIsCeiling | src/utils/display.ts:95-98 | the segment count is the integer ceiling of the width over the budget |
| Display.SegmentCountZeroIffEmpty | src/utils/display.ts:95-98 | only the empty line has zero segments |
| Display.SliceTimes | src/utils/display.ts:110-114 | repeating slices from a start stays between that start and the end of the line |
| Display.LastSegmentStart | src/utils/display.ts:103-117 | the start of the last segment is within the line |
| Display.GetLastSegmentCharIndex | src/utils/display.ts:103-117 | the loop returns `LastSegmentStart`, which is at most the line's length |
| Display.LastSegmentStartNotFinal | src/utils/display.ts:95-117 | for `a中a中` at width 2, the count is 3 and the last segment starts at 2, but the slice from there stops before the end |
| Display.SliceNarrow | src/utils/display.ts:56-68 | on narrow text a slice takes exactly the budget, or the rest of the line |
| Display.SliceTimesNarrow | src/utils/display.ts:110-114 | on narrow text k slices advance exactly k budgets, capped at the line's end |
| Display.NarrowLastSegmentReachesEnd | src/utils/display.ts:103-117 | on narrow text the last segment starts inside a non-empty line, and slicing from it reaches the end |
| Paging.WideBudgetFits | src/core/Book.ts:203-207 | with a budget of at least 2, every character fits, so slicing always makes progress |
| DisplayExamples.MixedWidth | test/display.test.ts:50 | `Hello你好` has width 9 |
| DisplayExamples.ChapterTitleWidth | test/display.test.ts:51 | `第1章` has width 5 |
| DisplayExamples.HelloWorldWidth | src/utils/display.ts:32-38 | `hello world` has width 11, the total that the two-segment count at width 6 rests on |
| DisplayExamples.HelloWorldFirstFive | test/display.test.ts:60-64 | `hello world` from 0 with width 5 cuts `hello`, ending at 5 |
| DisplayExamples.IdeographsFirstFour | test/display.test.ts:66-70 | `你好世界` from 0 with width 4 cuts `你好`, ending at 2 |
| DisplayExamples.HelloWorldFromMiddle | test/display.test.ts:72-76 | `hello world` from 6 with width 5 cuts `world`, ending at 11 |
| DisplayExamples.TooNarrowForIdeograph | test/display.test.ts:84-88 | `中文` with width 1 cuts nothing and stays at 0 |
| DisplayExamples.EmptyCut | test/display.test.ts:90-94 | the empty line cuts nothing |
| DisplayExamples.ChapterHeadingCut | src/utils/display.ts:56-68 | six columns of `第1章 标题` from 0 hold `第1章` and the space after it (2+1+2+1 = 6), so the cut is `第1章 ` ending at 4 |
| DisplayExamples.ChapterHeadingNotTitleOnly | test/display.test.ts:78-82 | the cut of `第1章 标题` from 0 with width 6 is not `第1章` ending at 3, the result this test expects |
| DisplayExamples.HelloWorldBackFive | test/display.test.ts:98-101 | stepping back 5 from 11 in `hello world` gives 6 |
| DisplayExamples.IdeographsBackFour | test/display.test.ts:103-106 | stepping back 4 from 4 in `你好世界` gives 2 |
| DisplayExamples.BackToStart | test/display.test.ts:108-111 | stepping back past the start stops at 0 |
| DisplayExamples.HelloWorldBackFromMiddle | test/display.test.ts:113-116 | stepping back 3 from 6 in `hello world` gives 3 |
| DisplayExamples.ShortLineOneSegment | test/display.test.ts:120-126 | `hello` is one segment at width 10 and at width 5 |
| DisplayExamples.HelloWorldTwoSegments | test/display.test.ts:128-130 | `hello world` is two segments at width 6 |
| DisplayExamples.IdeographsTwoSegments | test/display.test.ts:132-134 | `你好世界` is two segments at width 4 |
| DisplayExamples.EmptyNoSegment | test/display.test.ts:136-138 | the empty line has no segment |
| DisplayExamples.HelloWorldLastSegment | test/display.test.ts:146-149 | the last segment of `hello world` at width 6 starts at 6 |
| DisplayExamples.IdeographsLastSegment | test/display.test.ts:151-154 | the last segment of `你好世界` at width 4 starts at 2 |
| DisplayExamples.ShortLineLastSegment | test/display.test.ts:142-144 | `hello` at width 10 has its last segment at 0 |
| DisplayExamples.EmptyLastSegment | test/display.test.ts:156-158 | the empty line at width 10 has its last segment at 0 |
| Paging.NextStep | src/core/Book.ts:125-147 | one forward round: no line exactly when the index is outside the book; an advance never moves back, stays within the book and its lines, and a change of line goes to the start of the next line |
| Paging.NextSteps | src/core/Book.ts:124-148 | the rounds never move back, add at most k to the line index, and stay in the book |
| Paging.NextPage | src/core/Book.ts:124-151 | a forward turn never moves back, adds at most `displayLines` to the line index, never passes the last line, and keeps the offset within its line |
| Paging.LastPageIff | src/core/Book.ts:129-141 | the last-page signal comes exactly when the first slice already reaches the end of the last line |
| Paging.NextPageAdvances | src/core/Book.ts:124-148 | when the character under the cursor fits, a turn that is not the last page moves strictly forward |
| Paging.PrevStep | src/core/Book.ts:83-100 | one backward round: no step exactly at the first line with offset 0; a step moves strictly back, by at most one line, and keeps the offset within its line |
| Paging.PrevSteps | src/core/Book.ts:82-101 | the rounds never move forward, drop the line index by at most k, and move strictly back unless at the first line's start |
| Paging.PrevPage | src/core/Book.ts:82-104 | the first-page signal comes exactly at the first line with offset 0; otherwise the turn moves strictly back, by at most `displayLines` lines, to a valid position |
| Paging.StepBack | src/core/Book.ts:83-100 | one round of the backward loop returns `PrevStep`: the step back within the line, the last segment of the line before, or nothing at the start of the book |
| Paging.TurnForward | src/core/Book.ts:118-151 | the forward loop returns `NextPage` |
| Paging.TurnBack | src/core/Book.ts:76-104 | the backward loop returns `PrevPage` |
| Paging.BackAfterForward | src/core/Book.ts:82-148 | one row forward within a line, then one row back, returns to at or before the start |
| Paging.ForwardAfterBackPage | src/core/Book.ts:82-148 | one row back within a line, then one row forward, does not pass the start |
| Paging.Join | src/core/Book.ts:211 | no segments give no text, and a single segment gives itself |
| Paging.PageStep | src/core/Book.ts:192-225 | one round of the page loop keeps the segments so far and adds at most one; an empty or missing line uses a slot and adds nothing, otherwise a slot is used exactly when a segment is added; the line index stays or moves to the start of the next line |
| Paging.CollectFrom | src/core/Book.ts:191-226 | the loop keeps the segments it started with, and stops at once when no slot or no line is left |
| Paging.Page | src/core/Book.ts:183-191 | a page with no rows, or starting past the end of the book, is empty |
| Paging.PageStepProgress | src/core/Book.ts:191-225 | when every character fits, each round of the page loop moves to the next line or further along the same line |
| Paging.PageStepStallsOnWideChar | src/core/Book.ts:203-225 | a character wider than the budget under the cursor makes a round change nothing, so the loop spins |
| Paging.CollectShape | src/core/Book.ts:191-226 | the page loop keeps its segments, adds only non-empty fitting ones, and adds no more than its free slots |
| Paging.PageShape | src/core/Book.ts:191-226 | a page has at most `displayLines` segments, each non-empty and within `displayWidth` |
| Paging.PageStartsAtCursor | src/core/Book.ts:203-213 | a page that starts inside a line opens with the slice of that line from the offset |
| Paging.JoinSnoc | src/core/Book.ts:211 | appending a segment adds a single space before it, except to an empty page |
| PagingExamples.EmptyLineUsesSlot | src/core/Book.ts:195-200 | for `第一章`, an empty line and `第二章`, with 3 rows of width 20, the empty line takes a slot and the page reads `第一章 第二章` |
| PagingExamples.DefaultPageIsFirstLine | src/utils/config.ts:12-28 | at the default 45 columns and one row, every character fits and the page of `第一章`, an empty line and `第二章` is `第一章` alone |
| Books.Book.constructor | src/core/Book.ts:25-35 | a new book keeps its record with a missing offset set to 0, is reading and is not loaded |
| Books.Book.CheckReadable | src/core/Book.ts:269-280 | a book that is not reading, or not loaded, is not readable; a readable valid book has its line index below the number of lines (−1 for an empty book) |
| Books.Min | src/core/Book.ts:46 | the smaller of two integers: at most each, and equal to one of them |
| Books.Book.Init | src/core/Book.ts:40-64 | a successful load stores the lines, clamps the line index to the last line and defaults the offset to 0; a failed load leaves the book not loaded |
| Books.Book.PrevLine | src/core/Book.ts:71-106 | when not readable nothing changes; otherwise the position becomes `PrevPage`'s target, or stays with the first-page signal |
| Books.Book.NextLine | src/core/Book.ts:113-153 | when not readable nothing changes; otherwise the position becomes `NextPage`'s target, or stays with the last-page signal |
| Books.Book.JumpLine | src/core/Book.ts:158-171 | when not readable nothing changes; a target outside the book is rejected with nothing changed; otherwise the line is the target and the offset is 0 |
| Books.Book.UpdateDisplay | src/core/Book.ts:177-226 | the loop changes nothing and returns the page's segments at the current position joined by single spaces |
| Books.Book.Pause | src/core/Book.ts:285-288 | reading stops and the book is no longer readable |
| Books.Book.Start | src/core/Book.ts:293-296 | reading resumes, and the book is readable exactly when it is loaded |
| Manager.LoadBooks | src/core/BookManager.ts:30-37 | nothing stored gives the empty list; otherwise the stored list |
| Manager.FirstIndexOf | src/core/BookManager.ts:107 | the first entry with the id, as `find` finds it: it matches and no earlier entry does; none when no entry matches |
| Manager.WithoutId | src/core/BookManager.ts:97 | the filtered list is no longer than the list, and holds exactly the entries whose id differs |
| Manager.WithoutIdConcat | src/core/BookManager.ts:97 | filtering distributes over concatenation, so kept entries stay in their order |
| Manager.WithoutIdAbsent | src/core/BookManager.ts:97 | removing an id that is not present changes nothing |
| Manager.WithoutIdIdempotent | src/core/BookManager.ts:97 | deleting twice is deleting once |
| Manager.WithProgress | src/core/BookManager.ts:107-110 | recording progress keeps the length of the list, and an unknown id leaves it unchanged |
| Manager.ProgressReadBack | src/core/BookManager.ts:106-114 | recording progress keeps the length, ids, names and paths; only the first entry with the id changes, and reading it back gives the line and offset (0 when absent); an unknown id changes nothing |
| Manager.NewEntry | src/core/BookManager.ts:129-134 | a new entry has the new id, the file's base name and path, line 0, and reads from offset 0 |
| Manager.BookManager.constructor | src/core/BookManager.ts:20-21 | the list starts as the loaded list |
| Manager.BookManager.DeleteBook | src/core/BookManager.ts:96-101 | the list becomes the filtered list, which holds exactly the entries with another id |
| Manager.BookManager.UpdateBookProgress | src/core/BookManager.ts:106-114 | the list becomes `WithProgress` of the old list; an unknown id leaves it unchanged |
| Manager.BookManager.AddBook | src/core/BookManager.ts:119-141 | a non-empty pick appends one entry for the first file (its base name, the new id, line 0, its path); a cancelled or empty pick changes nothing |
| Manager.BookManager.GetBooks | src/core/BookManager.ts:153-155 | returns the current list |

## Left out

- File parsing (`src/core/Parser.ts`) is not part of this model. `Init` takes the parsed lines, or `None` for a failed parse, as a parameter. The parser drops whitespace-only lines, and the model accepts any sequence of lines.
- The messages, `commands.executeCommand` calls and status-bar updates are not modelled. The boundary messages of the moves are returned as `MoveResult` values.
- The auto-stop timer (`startAutoStopTimer`, `clearAutoStopTimer`) and the book's disposal are not modelled. They are timing, with no effect on the position.
- The side effects at the end of `updateDisplay` are not modelled: the status bar and the call to `updateBookProgress` on the manager. So `prevLine`, `nextLine`, `jumpLine`, `start` and the end of `init` do not re-render or persist. `UpdateDisplay` returns the page text instead.
- The configuration reads (`Config.getDisplayWidth`, `Config.getDisplayLines`) are parameters. Their defaults are the constants in `types.dfy`.
- Persistence (`saveBooks`, `getStorage`, `setStorage`), the tree view and `refreshTreeView`, and the open dialog are not modelled. `LoadBooks` takes the stored value, and `AddBook` takes the dialog's result.
- `generateId` (random and clock based) is a parameter `newId`. `path.parse(...).base` is a field of the picked file.
- The wiring that opens a book from the tree (`openBook`, `setReadingBook`) is not modelled.
- JavaScript numbers are modelled as unbounded integers. Positions and widths stay far below 2^53, and `Math.ceil` on the float quotient equals the integer ceiling for them.
- Books.Book.PrevLine: when the book is readable, requires a positive `displayWidth` and an offset within its line. A non-positive width is an invalid configuration and is not modelled. In the source a zero width makes the segment count infinite, and the loop never ends once it has to go to a non-empty previous line. A negative width always terminates: a step within a line leaves the offset unchanged, and a step from the start of a line goes to the start of the previous line. An offset past its line reads `undefined` and throws.
- Paging.TurnBack, Paging.StepBack, Paging.PrevStep, Paging.PrevSteps, Paging.PrevPage: the same requirement as `PrevLine`, for the same reasons.
- Books.Book.UpdateDisplay: requires that every character fits the width (`EveryCharFits`, which holds for any width of at least 2 by `WideBudgetFits`). This is sufficient, not necessary. The source loop spins only when it reaches a character wider than the budget while slots remain (`PageStepStallsOnWideChar`). For example, with width 1, lines `a` and `中`, the cursor at the start and one row, the source stops with the text `a` before it ever reaches `中`. Such pages are not modelled.
- Paging.CollectFrom, Paging.Page, Paging.CollectShape, Paging.PageShape: the same requirement as `UpdateDisplay` (`EveryCharFits`), for the same reason: it is what makes the page loop terminate.
- Display.GetSegmentCount, Display.LastSegmentStart and Display.GetLastSegmentCharIndex: require a positive `displayWidth`. A non-positive width is an invalid configuration. In the source a zero width gives an infinite count for a non-empty string and `NaN` for the empty one, and a negative width gives a count of at most 0.
- Manager.BookManager.UpdateBookProgress: the source mutates the found record in place, and any other holder of that record sees the change. The model replaces the record in the list by value, so aliasing is not captured. `GetBooks` likewise returns a value, not the live array.

## Findings

| source | as written | input that shows it | evidently intended | confidence | as-written member | corrected member |
|---|---|---|---|---|---|---|
| test/display.test.ts:78-82 | the test expects `('第1章', 3)` from `substringByDisplayWidth`, while `src/utils/display.ts:56-68` adds the space as well | `'第1章 标题'`, start 0, width 6 | `('第1章 ', 4)`: the space fits, 2+1+2+1 = 6, as the test's own comment counts | not executed; high | DisplayExamples.ChapterHeadingNotTitleOnly | DisplayExamples.ChapterHeadingCut |
