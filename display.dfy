/**
 * Display-width arithmetic for text that mixes narrow (Latin, digits) and
 * wide (CJK, kana, Hangul, full-width) characters: the width of one UTF-16
 * code unit, the width of a string, the longest prefix from an index that
 * fits a width budget, the backwards step by a budget, and segment counting.
 */
module Display {

  /** A UTF-16 code unit, as `str[i]` and `str.charCodeAt(0)` see it. */
  type CodeUnit = c: int | 0 <= c < 0x1_0000

  /** A line of text; every index is a code-unit index, as `str.length` counts. */
  type Line = seq<CodeUnit>

  /** The nine inclusive code-unit ranges whose characters take two columns. */
  const WideRanges: seq<(int, int)> := [
    (0x4E00, 0x9FFF),  // CJK unified ideographs
    (0x3400, 0x4DBF),  // CJK extension A
    (0x3000, 0x303F),  // CJK symbols and punctuation
    (0xFF00, 0xFFEF),  // full-width ASCII, half-width kana
    (0x3040, 0x309F),  // hiragana
    (0x30A0, 0x30FF),  // katakana
    (0xAC00, 0xD7AF),  // Hangul syllables
    (0x2E80, 0x2EFF),  // CJK radicals supplement
    (0x2F00, 0x2FDF)   // Kangxi radicals
  ]

  ghost predicate InWideRanges(c: int) {
    exists k :: 0 <= k < |WideRanges| && WideRanges[k].0 <= c <= WideRanges[k].1
  }

  /** Width of one code unit: 2 inside the wide ranges, 1 everywhere else. */
  function CharWidth(c: CodeUnit): (w: int)
    ensures w == 1 || w == 2
  {
    if (0x4E00 <= c <= 0x9FFF) || (0x3400 <= c <= 0x4DBF) || (0x3000 <= c <= 0x303F) ||
       (0xFF00 <= c <= 0xFFEF) || (0x3040 <= c <= 0x309F) || (0x30A0 <= c <= 0x30FF) ||
       (0xAC00 <= c <= 0xD7AF) || (0x2E80 <= c <= 0x2EFF) || (0x2F00 <= c <= 0x2FDF)
    then 2
    else 1
  }

  /** The classification agrees with the table of ranges, in both directions. */
  lemma CharWidthTable(c: CodeUnit)
    ensures CharWidth(c) == 2 <==> InWideRanges(c)
  {
    if InWideRanges(c) {
      var k :| 0 <= k < |WideRanges| && WideRanges[k].0 <= c <= WideRanges[k].1;
      assert k in {0, 1, 2, 3, 4, 5, 6, 7, 8};
    }
    if CharWidth(c) == 2 {
      if 0x4E00 <= c <= 0x9FFF { assert WideRanges[0].0 <= c <= WideRanges[0].1; }
      else if 0x3400 <= c <= 0x4DBF { assert WideRanges[1].0 <= c <= WideRanges[1].1; }
      else if 0x3000 <= c <= 0x303F { assert WideRanges[2].0 <= c <= WideRanges[2].1; }
      else if 0xFF00 <= c <= 0xFFEF { assert WideRanges[3].0 <= c <= WideRanges[3].1; }
      else if 0x3040 <= c <= 0x309F { assert WideRanges[4].0 <= c <= WideRanges[4].1; }
      else if 0x30A0 <= c <= 0x30FF { assert WideRanges[5].0 <= c <= WideRanges[5].1; }
      else if 0xAC00 <= c <= 0xD7AF { assert WideRanges[6].0 <= c <= WideRanges[6].1; }
      else if 0x2E80 <= c <= 0x2EFF { assert WideRanges[7].0 <= c <= WideRanges[7].1; }
      else { assert WideRanges[8].0 <= c <= WideRanges[8].1; }
    }
  }

  /** The classification of the characters the reader's own unit tests name. */
  lemma CharWidthExamples()
    ensures CharWidth('a' as int) == 1 && CharWidth('Z' as int) == 1
    ensures CharWidth('0' as int) == 1 && CharWidth(' ' as int) == 1
    ensures CharWidth(0x4E2D) == 2  // U+4E2D, "middle"
    ensures CharWidth(0x3042) == 2  // hiragana A
    ensures CharWidth(0x30A2) == 2  // katakana A
    ensures CharWidth(0x3002) == 2  // ideographic full stop
    ensures CharWidth(0xFF0C) == 2  // full-width comma
    ensures CharWidth(0xFF01) == 2  // full-width exclamation mark
  {
  }

  // ---------------------------------------------------------------------
  // Width of a string
  // ---------------------------------------------------------------------

  /** Sum of the widths of the code units of `s`: the measure the slicing loops use. */
  function Width(s: Line): (w: nat)
    ensures |s| <= w <= 2 * |s|
  {
    if s == [] then 0 else CharWidth(s[0]) + Width(s[1..])
  }

  lemma {:induction false} WidthAppend(a: Line, b: Line)
    ensures Width(a + b) == Width(a) + Width(b)
  {
    if a == [] {
      assert a + b == b;
    } else {
      assert (a + b)[1..] == a[1..] + b;
      WidthAppend(a[1..], b);
    }
  }

  lemma WidthOne(s: Line, i: nat)
    requires i < |s|
    ensures Width(s[i..i + 1]) == CharWidth(s[i])
  {
    assert s[i..i + 1][1..] == [];
  }

  lemma WidthSplit(s: Line, i: nat, j: nat, k: nat)
    requires i <= j <= k <= |s|
    ensures Width(s[i..k]) == Width(s[i..j]) + Width(s[j..k])
  {
    assert s[i..k] == s[i..j] + s[j..k];
    WidthAppend(s[i..j], s[j..k]);
  }

  predicate IsHighSurrogate(c: int) { 0xD800 <= c <= 0xDBFF }

  predicate IsLowSurrogate(c: int) { 0xDC00 <= c <= 0xDFFF }

  /** A well-formed surrogate pair starts at `i`: string iteration yields it as one character. */
  predicate PairAt(s: Line, i: int) {
    0 <= i && i + 1 < |s| && IsHighSurrogate(s[i]) && IsLowSurrogate(s[i + 1])
  }

  ghost predicate NoSurrogatePairs(s: Line) {
    forall i :: 0 <= i < |s| - 1 ==> !(IsHighSurrogate(s[i]) && IsLowSurrogate(s[i + 1]))
  }

  /**
   * Width of `s` as measured character by character over its code points: a
   * surrogate pair is one character, classified by its first (high) unit.
   */
  function StringWidth(s: Line): (w: nat)
    ensures w <= Width(s)
    ensures s != [] ==> w > 0
  {
    if s == [] then 0
    else if PairAt(s, 0) then
      assert s[1..][1..] == s[2..];
      CharWidth(s[0]) + StringWidth(s[2..])
    else CharWidth(s[0]) + StringWidth(s[1..])
  }

  /** Without surrogate pairs both measures agree: the string width is the sum over code units. */
  lemma {:induction false} StringWidthWithoutPairs(s: Line)
    requires NoSurrogatePairs(s)
    ensures StringWidth(s) == Width(s)
  {
    if s != [] {
      assert !PairAt(s, 0);
      assert NoSurrogatePairs(s[1..]) by {
        forall i | 0 <= i < |s[1..]| - 1
          ensures !(IsHighSurrogate(s[1..][i]) && IsLowSurrogate(s[1..][i + 1]))
        {
          assert s[1..][i] == s[i + 1] && s[1..][i + 1] == s[i + 2];
        }
      }
      StringWidthWithoutPairs(s[1..]);
    }
  }

  /** Measures a whole string, one code point per iteration. */
  method GetStringDisplayWidth(str: Line) returns (width: nat)
    ensures width == StringWidth(str)
  {
    width := 0;
    var i := 0;
    while i < |str|
      invariant 0 <= i <= |str|
      invariant width + StringWidth(str[i..]) == StringWidth(str)
    {
      assert PairAt(str[i..], 0) == PairAt(str, i);
      width := width + CharWidth(str[i]);
      if PairAt(str, i) {
        assert str[i..][2..] == str[i + 2..];
        i := i + 2;
      } else {
        assert str[i..][1..] == str[i + 1..];
        i := i + 1;
      }
    }
    assert str[i..] == [];
  }

  // ---------------------------------------------------------------------
  // Forward slicing by width
  // ---------------------------------------------------------------------

  /** The taken text and the index of the first code unit not taken. */
  datatype Cut = Cut(text: Line, endCharIndex: nat)

  /**
   * Greedy slice of `s` from `start` within `maxWidth` columns: code units are
   * taken while the running width stays within the budget, and slicing stops at
   * the first unit that would exceed it, so a wide character is never split.
   */
  function Slice(s: Line, start: nat, maxWidth: int): (r: Cut)
    ensures start <= |s| ==> start <= r.endCharIndex <= |s| && r.text == s[start..r.endCharIndex]
    ensures start > |s| ==> r == Cut([], start)
    decreases |s| - start
  {
    if start < |s| && 0 < maxWidth && CharWidth(s[start]) <= maxWidth then
      var rest := Slice(s, start + 1, maxWidth - CharWidth(s[start]));
      assert [s[start]] + s[start + 1..rest.endCharIndex] == s[start..rest.endCharIndex];
      Cut([s[start]] + rest.text, rest.endCharIndex)
    else
      Cut([], start)
  }

  /**
   * The slice fits the budget, is maximal (the first unit left out would
   * overflow it, so a wide character is never half-taken), and makes no
   * progress exactly when the next unit alone does not fit.
   */
  lemma {:induction false} SliceFits(s: Line, start: nat, maxWidth: int)
    ensures var r := Slice(s, start, maxWidth);
      && (r.text == [] || Width(r.text) <= maxWidth)
      && (r.endCharIndex < |s| ==> Width(r.text) + CharWidth(s[r.endCharIndex]) > maxWidth)
      && (r.endCharIndex == start <==> !(start < |s| && CharWidth(s[start]) <= maxWidth))
    decreases |s| - start
  {
    if start < |s| && 0 < maxWidth && CharWidth(s[start]) <= maxWidth {
      var rest := Slice(s, start + 1, maxWidth - CharWidth(s[start]));
      SliceFits(s, start + 1, maxWidth - CharWidth(s[start]));
      assert ([s[start]] + rest.text)[1..] == rest.text;
    }
  }

  /** Cuts the longest prefix of `str[startCharIndex..]` that fits `maxWidth` columns. */
  method SubstringByDisplayWidth(str: Line, startCharIndex: nat, maxWidth: int) returns (r: Cut)
    ensures r == Slice(str, startCharIndex, maxWidth)
  {
    var currentWidth := 0;
    var result: Line := [];
    var i := startCharIndex;
    while i < |str| && currentWidth < maxWidth
      invariant startCharIndex <= i
      invariant startCharIndex <= |str| ==> i <= |str|
      invariant startCharIndex > |str| ==> i == startCharIndex
      invariant |result| == i - startCharIndex
      invariant forall k :: 0 <= k < |result| ==> result[k] == str[startCharIndex + k]
      invariant Slice(str, i, maxWidth - currentWidth).endCharIndex == Slice(str, startCharIndex, maxWidth).endCharIndex
    {
      var charWidth := CharWidth(str[i]);
      if currentWidth + charWidth > maxWidth {
        break;
      }
      result := result + [str[i]];
      currentWidth := currentWidth + charWidth;
      i := i + 1;
    }
    assert Slice(str, i, maxWidth - currentWidth).endCharIndex == i;
    assert startCharIndex <= |str| ==> result == str[startCharIndex..i];
    r := Cut(result, i);
  }

  // ---------------------------------------------------------------------
  // Backward stepping by width
  // ---------------------------------------------------------------------

  /**
   * Steps left from `cur` over whole code units until at least `maxWidth`
   * columns have been passed or the start of the line is reached.
   */
  function PrevIndex(s: Line, cur: nat, maxWidth: int): (r: nat)
    requires cur <= |s|
    ensures r <= cur
    decreases cur
  {
    if 0 < cur && 0 < maxWidth then PrevIndex(s, cur - 1, maxWidth - CharWidth(s[cur - 1])) else cur
  }

  /** The step back stays put only at the line start or for an empty budget. */
  lemma {:induction false} PrevIndexStays(s: Line, cur: nat, maxWidth: int)
    requires cur <= |s|
    ensures PrevIndex(s, cur, maxWidth) == cur <==> cur == 0 || maxWidth <= 0
  {
    if 0 < cur && 0 < maxWidth {
      assert PrevIndex(s, cur, maxWidth) <= cur - 1;
    }
  }

  /** Unless it reached the line start, the step back passes at least the budget. */
  lemma {:induction false} PrevIndexPassesBudget(s: Line, cur: nat, maxWidth: int)
    requires cur <= |s|
    ensures var r := PrevIndex(s, cur, maxWidth);
      r == 0 || Width(s[r..cur]) >= maxWidth
    decreases cur
  {
    if 0 < cur && 0 < maxWidth {
      var w := maxWidth - CharWidth(s[cur - 1]);
      var r := PrevIndex(s, cur - 1, w);
      PrevIndexPassesBudget(s, cur - 1, w);
      WidthSplit(s, r, cur - 1, cur);
      WidthOne(s, cur - 1);
    }
  }

  /** The step back overshoots the budget by less than the last character passed. */
  lemma {:induction false} PrevIndexTight(s: Line, cur: nat, maxWidth: int)
    requires cur <= |s|
    ensures var r := PrevIndex(s, cur, maxWidth);
      r < cur ==> Width(s[r + 1..cur]) < maxWidth
    decreases cur
  {
    if 0 < cur && 0 < maxWidth {
      var w := maxWidth - CharWidth(s[cur - 1]);
      var r := PrevIndex(s, cur - 1, w);
      PrevIndexTight(s, cur - 1, w);
      PrevIndexStays(s, cur - 1, w);
      if r + 1 <= cur - 1 {
        WidthSplit(s, r + 1, cur - 1, cur);
        WidthOne(s, cur - 1);
      }
    }
  }

  /** Finds where a page of `displayWidth` columns ending at `currentCharIndex` begins. */
  method GetPrevCharIndexByDisplayWidth(str: Line, currentCharIndex: nat, displayWidth: int) returns (i: nat)
    requires currentCharIndex <= |str|
    ensures i == PrevIndex(str, currentCharIndex, displayWidth)
  {
    var width := 0;
    i := currentCharIndex;
    while i > 0 && width < displayWidth
      invariant i <= currentCharIndex
      invariant PrevIndex(str, i, displayWidth - width) == PrevIndex(str, currentCharIndex, displayWidth)
    {
      i := i - 1;
      width := width + CharWidth(str[i]);
    }
  }

  /**
   * Back-then-forward never skips content: stepping back by the budget from the
   * end of a forward slice lands at or before the slice's start.
   */
  lemma BackThenForward(s: Line, start: nat, w: int)
    requires start <= |s|
    ensures PrevIndex(s, Slice(s, start, w).endCharIndex, w) <= start
  {
    var e := Slice(s, start, w).endCharIndex;
    var r := PrevIndex(s, e, w);
    SliceFits(s, start, w);
    PrevIndexPassesBudget(s, e, w);
    if r > start {
      // then r < e and r > 0, so s[r..e] alone already reaches the budget
      WidthSplit(s, start, r, e);
    }
  }

  /**
   * Forward-after-back never runs past the starting point: unless the step
   * back stopped at the line start, a slice from where it stopped ends at or
   * before the index it stepped back from.
   */
  lemma ForwardAfterBack(s: Line, cur: nat, w: int)
    requires cur <= |s|
    requires PrevIndex(s, cur, w) > 0
    ensures Slice(s, PrevIndex(s, cur, w), w).endCharIndex <= cur
  {
    var r := PrevIndex(s, cur, w);
    var e := Slice(s, r, w).endCharIndex;
    PrevIndexPassesBudget(s, cur, w);
    SliceFits(s, r, w);
    if e > cur {
      // the slice would hold s[r..cur], already at least the budget, plus s[cur]
      WidthSplit(s, r, cur, e);
    }
  }

  // ---------------------------------------------------------------------
  // Segments
  // ---------------------------------------------------------------------

  lemma CeilDiv(total: nat, d: int)
    requires d > 0
    ensures (total + d - 1) / d >= 0
    ensures ((total + d - 1) / d) * d >= total
    ensures ((total + d - 1) / d - 1) * d < total
  {
    var n := (total + d - 1) / d;
    var m := (total + d - 1) % d;
    assert total + d - 1 == n * d + m && 0 <= m < d;
    assert (n - 1) * d == n * d - d;
  }

  /** With a budget of at least one column the rounded-up quotient does not exceed the total. */
  lemma CeilDivAtMost(total: nat, d: int)
    requires d > 0
    ensures (total + d - 1) / d <= total
  {
    CeilDiv(total, d);
    var n := (total + d - 1) / d;
    if n > total {
      MulAtLeast(n - 1, d);
    }
  }

  /** Multiplying by a positive integer does not make a natural number smaller. */
  lemma MulAtLeast(a: nat, d: int)
    requires d > 0
    ensures a * d >= a
  {
    assert a * d == a * (d - 1) + a;
  }

  /**
   * Number of `displayWidth`-column segments of a string, never more than
   * its width.
   */
  function GetSegmentCount(s: Line, displayWidth: int): (n: nat)
    requires displayWidth > 0
    ensures n <= StringWidth(s)
  {
    CeilDiv(StringWidth(s), displayWidth);
    CeilDivAtMost(StringWidth(s), displayWidth);
    (StringWidth(s) + displayWidth - 1) / displayWidth
  }

  /** The segment count is the ceiling of the string width over the budget. */
  lemma SegmentCountIsCeiling(s: Line, displayWidth: int)
    requires displayWidth > 0
    ensures var n := GetSegmentCount(s, displayWidth);
      n * displayWidth >= StringWidth(s) && (n - 1) * displayWidth < StringWidth(s)
  {
    CeilDiv(StringWidth(s), displayWidth);
  }

  /** Only the empty string has no segment. */
  lemma SegmentCountZeroIffEmpty(s: Line, displayWidth: int)
    requires displayWidth > 0
    ensures GetSegmentCount(s, displayWidth) == 0 <==> s == []
  {
    SegmentCountIsCeiling(s, displayWidth);
  }

  /** The index reached from `start` by `k` successive forward slices. */
  function SliceTimes(s: Line, start: nat, maxWidth: int, k: int): (r: nat)
    requires start <= |s|
    ensures start <= r <= |s|
    decreases k
  {
    if k <= 0 then start
    else SliceTimes(s, Slice(s, start, maxWidth).endCharIndex, maxWidth, k - 1)
  }

  /** Start of the "last segment": 0 for at most one segment, else the end of `count - 1` slices from 0. */
  function LastSegmentStart(s: Line, displayWidth: int): (r: nat)
    requires displayWidth > 0
    ensures r <= |s|
  {
    var segments := GetSegmentCount(s, displayWidth);
    if segments <= 1 then 0 else SliceTimes(s, 0, displayWidth, segments - 1)
  }

  /** Finds the start of the last segment by slicing forward from the beginning. */
  method GetLastSegmentCharIndex(str: Line, displayWidth: int) returns (charIndex: nat)
    requires displayWidth > 0
    ensures charIndex == LastSegmentStart(str, displayWidth)
    ensures charIndex <= |str|
  {
    var segments := GetSegmentCount(str, displayWidth);
    if segments <= 1 {
      return 0;
    }
    charIndex := 0;
    var seg := 0;
    while seg < segments - 1
      invariant 0 <= seg <= segments - 1
      invariant charIndex <= |str|
      invariant SliceTimes(str, charIndex, displayWidth, segments - 1 - seg) == SliceTimes(str, 0, displayWidth, segments - 1)
    {
      var cut := SubstringByDisplayWidth(str, charIndex, displayWidth);
      charIndex := cut.endCharIndex;
      seg := seg + 1;
    }
  }

  /**
   * The segment count is computed from the total width, which can be smaller
   * than the number of slices: "a", U+4E2D, "a", U+4E2D within 2 columns has
   * width 6, so 3 segments, yet slices as a|U+4E2D|a|U+4E2D; the "last
   * segment" then starts at 2 and the slice from there does not reach the end.
   */
  lemma LastSegmentStartNotFinal()
    ensures var s: Line := [0x61, 0x4E2D, 0x61, 0x4E2D];
      GetSegmentCount(s, 2) == 3 && LastSegmentStart(s, 2) == 2 &&
      Slice(s, LastSegmentStart(s, 2), 2).endCharIndex == 3 < |s|
  {
  }

  ghost predicate AllNarrow(s: Line) {
    forall i :: 0 <= i < |s| ==> CharWidth(s[i]) == 1
  }

  lemma {:induction false} WidthNarrow(s: Line)
    requires AllNarrow(s)
    ensures Width(s) == |s|
  {
    if s != [] {
      assert AllNarrow(s[1..]) by {
        forall i | 0 <= i < |s[1..]| ensures CharWidth(s[1..][i]) == 1 {
          assert s[1..][i] == s[i + 1];
        }
      }
      WidthNarrow(s[1..]);
    }
  }

  lemma {:induction false} SliceNarrow(s: Line, i: nat, w: int)
    requires AllNarrow(s) && i <= |s| && w >= 0
    ensures Slice(s, i, w).endCharIndex == if i + w <= |s| then i + w else |s|
    decreases |s| - i
  {
    if i < |s| && 0 < w {
      SliceNarrow(s, i + 1, w - 1);
    }
  }

  lemma {:induction false} SliceTimesNarrow(s: Line, i: nat, w: int, k: nat)
    requires AllNarrow(s) && i <= |s| && w > 0
    ensures SliceTimes(s, i, w, k) == if i + k * w <= |s| then i + k * w else |s|
    decreases k
  {
    if k > 0 {
      SliceNarrow(s, i, w);
      var j := Slice(s, i, w).endCharIndex;
      SliceTimesNarrow(s, j, w, k - 1);
      assert i + k * w == i + w + (k - 1) * w;
      if i + w > |s| {
        assert j == |s|;
        assert i + k * w >= i + w;
      }
    }
  }

  /**
   * On text of narrow characters only (and no surrogate pairs) the last
   * segment does start the final slice: it lies before the end of a
   * non-empty string and one slice from it reaches the end.
   */
  lemma NarrowLastSegmentReachesEnd(s: Line, displayWidth: int)
    requires displayWidth > 0 && AllNarrow(s) && NoSurrogatePairs(s)
    ensures s != [] ==> LastSegmentStart(s, displayWidth) < |s|
    ensures Slice(s, LastSegmentStart(s, displayWidth), displayWidth).endCharIndex == |s|
  {
    var n := GetSegmentCount(s, displayWidth);
    NarrowSegmentCount(s, displayWidth);
    if n <= 1 {
      SliceNarrow(s, 0, displayWidth);
    } else {
      NarrowSliceAfter(s, displayWidth, n);
    }
  }

  /** On a narrow line without surrogate pairs the segment count is the ceiling of its length over the budget. */
  lemma NarrowSegmentCount(s: Line, displayWidth: int)
    requires displayWidth > 0 && AllNarrow(s) && NoSurrogatePairs(s)
    ensures var n := GetSegmentCount(s, displayWidth);
      (n - 1) * displayWidth < |s| <= n * displayWidth
  {
    StringWidthWithoutPairs(s);
    WidthNarrow(s);
    SegmentCountIsCeiling(s, displayWidth);
  }

  /** Slicing `n - 1` full budgets from the start of a narrow line leaves one slice that reaches its end. */
  lemma NarrowSliceAfter(s: Line, w: int, n: nat)
    requires w > 0 && AllNarrow(s) && n >= 1 && (n - 1) * w < |s| <= n * w
    ensures SliceTimes(s, 0, w, n - 1) < |s|
    ensures Slice(s, SliceTimes(s, 0, w, n - 1), w).endCharIndex == |s|
  {
    SliceTimesNarrow(s, 0, w, n - 1);
    SliceNarrow(s, (n - 1) * w, w);
    MulSucc(n - 1, w);
  }

  lemma MulSucc(m: int, d: int)
    ensures (m + 1) * d == m * d + d
  {
  }
}
