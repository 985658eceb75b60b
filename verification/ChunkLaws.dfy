/** What sets the chunking strategies apart: where each one cuts a text, told by the text's lines or positions. */
module ChunkLaws {
  import opened Common
  import opened Text
  import opened SentencePacker
  import opened Sections
  import opened SlidingWindow

  // ---- cutting at given lines -----------------------------------------------

  /** The sections are the lines from `at` on, cut exactly at the lines that start one. */
  ghost predicate CutExactly(sections: seq<seq<string>>, lines: seq<string>, at: nat, starts: nat -> bool)
    decreases |sections|
  {
    if sections == [] then at == |lines|
    else
      var end := at + |sections[0]|;
      && at < end <= |lines| && lines[at..end] == sections[0]
      && (at > 0 ==> starts(at))
      && (forall k :: at < k < end ==> !starts(k))
      && CutExactly(sections[1..], lines, end, starts)
  }

  /** What a section becomes: nothing if it is blank, itself if it fits, and else its sentences in a sliding cover. */
  ghost predicate BecomesChunks(content: string, chunks: seq<string>, size: int, overlap: int) {
    if Blank(content) then chunks == []
    else if Max(1, |content| / 4) <= size / 4 then chunks == [content]
    else PackedAs(content, chunks, size, overlap)
  }

  ghost predicate PackedAs(text: string, chunks: seq<string>, size: int, overlap: int) {
    exists groups :: SlidingCover(groups, SplitSentences(text), size / 4, overlap / 4) && chunks == JoinEach(groups, " ")
  }

  ghost predicate AllBecome(contents: seq<string>, chunks: seq<string>, size: int, overlap: int) {
    exists parts: seq<seq<string>> :: |parts| == |contents| && Concat(parts) == chunks
      && forall i :: 0 <= i < |contents| ==> BecomesChunks(contents[i], parts[i], size, overlap)
  }

  /** The chunks of a text that is cut at these lines. */
  ghost predicate ChunkedAt(text: string, chunks: seq<string>, size: int, overlap: int, starts: nat -> bool) {
    exists sections :: CutExactly(sections, SplitLines(text), 0, starts)
      && AllBecome(JoinEach(sections, "\n"), chunks, size, overlap)
  }

  lemma PackerCovers(text: string, size: int, overlap: int)
    ensures PackedAs(text, SemanticChunks(text, size, overlap), size, overlap)
  {
    hide SlidingCover, Pack;
    PackIsSlidingCover(SplitSentences(text), size / 4, overlap / 4);
    assert SlidingCover(Groups(text, size, overlap), SplitSentences(text), size / 4, overlap / 4);
  }

  lemma {:induction false} EmitConcat(contents: seq<string>, parts: seq<seq<string>>, size: int, overlap: int)
    requires |parts| == |contents| && forall i :: 0 <= i < |contents| ==> parts[i] == EmitOne(contents[i], size, overlap)
    ensures Concat(parts) == Emit(contents, size, overlap)
  {
    hide EmitOne;
    if contents != [] {
      EmitConcat(contents[..|contents| - 1], parts[..|parts| - 1], size, overlap);
    }
  }

  lemma EmitBecomes(contents: seq<string>, size: int, overlap: int)
    ensures AllBecome(contents, Emit(contents, size, overlap), size, overlap)
  {
    hide Blank, SemanticChunks, PackedAs, Emit;
    var parts := seq(|contents|, i requires 0 <= i < |contents| => EmitOne(contents[i], size, overlap));
    EmitConcat(contents, parts, size, overlap);
    forall i | 0 <= i < |contents|
      ensures BecomesChunks(contents[i], parts[i], size, overlap)
    {
      PackerCovers(contents[i], size, overlap);
    }
  }

  // ---- headings -------------------------------------------------------------

  /** A heading starts a section. */
  function HeadingStarts(lines: seq<string>): nat -> bool {
    (k: nat) => k < |lines| && IsHeading(lines[k])
  }

  lemma FlushCut(held: seq<string>, rest: seq<seq<string>>, lines: seq<string>, i: nat, starts: nat -> bool)
    requires |held| <= i <= |lines| && lines[i - |held|..i] == held && (held == [] ==> i == 0)
    requires i - |held| > 0 ==> starts(i - |held|)
    requires forall k :: i - |held| < k < i ==> !starts(k)
    requires CutExactly(rest, lines, i, starts)
    ensures CutExactly(Flush(held) + rest, lines, i - |held|, starts)
  {
    if held == [] {
      assert Flush(held) + rest == rest;
    } else {
      assert ([held] + rest)[1..] == rest;
    }
  }

  lemma {:induction false} HeadingsCut(lines: seq<string>, i: nat, current: seq<string>)
    requires |current| <= i <= |lines| && lines[i - |current|..i] == current && (current == [] ==> i == 0)
    requires i - |current| > 0 ==> HeadingStarts(lines)(i - |current|)
    requires forall k :: i - |current| < k < i ==> !HeadingStarts(lines)(k)
    ensures CutExactly(HeadingSections(lines[i..], current), lines, i - |current|, HeadingStarts(lines))
    decreases |lines| - i
  {
    hide IsHeading, CutExactly;
    var starts := HeadingStarts(lines);
    if i == |lines| {
      CutEnds(lines, starts);
      FlushCut(current, [], lines, i, starts);
      assert Flush(current) + [] == Flush(current);
    } else {
      assert lines[i..][0] == lines[i] && lines[i..][1..] == lines[i + 1..];
      if IsHeading(lines[i]) {
        HeadingsCut(lines, i + 1, [lines[i]]);
        FlushCut(current, HeadingSections(lines[i + 1..], [lines[i]]), lines, i, starts);
      } else {
        HeadingsCut(lines, i + 1, current + [lines[i]]);
      }
    }
  }

  lemma CutEnds(lines: seq<string>, starts: nat -> bool)
    ensures CutExactly([], lines, |lines|, starts)
  {
  }

  // ---- Markdown -------------------------------------------------------------

  function FencesBefore(lines: seq<string>, k: nat): nat
    requires k <= |lines|
  {
    if k == 0 then 0 else FencesBefore(lines, k - 1) + if IsFence(lines[k - 1]) then 1 else 0
  }

  /** Outside code blocks, after an even number of fences, a heading and the fence that opens a block start a section. */
  function MarkdownStarts(lines: seq<string>): nat -> bool {
    (k: nat) => k < |lines| && FencesBefore(lines, k) % 2 == 0 && (IsFence(lines[k]) || IsHeading(lines[k]))
  }

  /** What the state machine holds: the lines of the section under way, inside or outside a code block. */
  ghost predicate Holding(lines: seq<string>, i: nat, held: seq<string>, inCode: bool) {
    && |held| <= i <= |lines| && lines[i - |held|..i] == held && (held == [] ==> i == 0)
    && (inCode <==> FencesBefore(lines, i) % 2 == 1)
    && (i - |held| > 0 ==> MarkdownStarts(lines)(i - |held|))
    && (forall k :: i - |held| < k < i ==> !MarkdownStarts(lines)(k))
  }

  function InCodeAfter(line: string, inCode: bool): bool {
    if IsFence(line) then !inCode else inCode
  }

  lemma OneMoreFence(lines: seq<string>, i: nat)
    requires i < |lines|
    ensures FencesBefore(lines, i + 1) == FencesBefore(lines, i) + if IsFence(lines[i]) then 1 else 0
  {
  }

  lemma LineTaken(lines: seq<string>, at: nat, i: nat, held: seq<string>)
    requires at <= i < |lines| && lines[at..i] == held
    ensures lines[at..i + 1] == held + [lines[i]]
  {
  }

  lemma ParityNext(lines: seq<string>, i: nat, inCode: bool)
    requires i < |lines| && (inCode <==> FencesBefore(lines, i) % 2 == 1)
    ensures InCodeAfter(lines[i], inCode) <==> FencesBefore(lines, i + 1) % 2 == 1
  {
    OneMoreFence(lines, i);
    hide FencesBefore, IsFence;
  }

  /** A line that starts a section is held alone. */
  lemma HoldAnew(lines: seq<string>, i: nat, inCode: bool)
    requires i < |lines| && (inCode <==> FencesBefore(lines, i) % 2 == 1) && MarkdownStarts(lines)(i)
    ensures Holding(lines, i + 1, [lines[i]], InCodeAfter(lines[i], inCode))
  {
    hide IsFence, MarkdownStarts, FencesBefore, InCodeAfter;
    ParityNext(lines, i, inCode);
    assert lines[i..i + 1] == [lines[i]];
  }

  /** A line that starts nothing is held too. */
  lemma HoldOn(lines: seq<string>, i: nat, held: seq<string>, inCode: bool)
    requires Holding(lines, i, held, inCode) && i < |lines| && !MarkdownStarts(lines)(i)
    ensures Holding(lines, i + 1, held + [lines[i]], InCodeAfter(lines[i], inCode))
  {
    hide IsFence, MarkdownStarts, FencesBefore, InCodeAfter;
    ParityNext(lines, i, inCode);
    LineTaken(lines, i - |held|, i, held);
    var held' := held + [lines[i]];
    assert i + 1 - |held'| == i - |held|;
    forall k | i - |held| < k < i + 1
      ensures !MarkdownStarts(lines)(k)
    {
    }
  }

  lemma StartsHere(lines: seq<string>, i: nat, inCode: bool)
    requires i < |lines| && (inCode <==> FencesBefore(lines, i) % 2 == 1)
    ensures MarkdownStarts(lines)(i) <==> !inCode && (IsFence(lines[i]) || IsHeading(lines[i]))
  {
  }

  lemma HoldFlush(lines: seq<string>, i: nat, held: seq<string>, inCode: bool, rest: seq<seq<string>>)
    requires Holding(lines, i, held, inCode) && CutExactly(rest, lines, i, MarkdownStarts(lines))
    ensures CutExactly(Flush(held) + rest, lines, i - |held|, MarkdownStarts(lines))
  {
    hide CutExactly, MarkdownStarts;
    FlushCut(held, rest, lines, i, MarkdownStarts(lines));
  }

  function SectionsFrom(lines: seq<string>, i: nat, held: seq<string>, inCode: bool): seq<seq<string>>
    requires i <= |lines|
  {
    MarkdownSections(lines[i..], if inCode then [] else held, if inCode then held else [], inCode)
  }

  /** The state machine, one line further. */
  lemma SectionsNext(lines: seq<string>, i: nat, held: seq<string>, inCode: bool)
    requires i <= |lines|
    ensures SectionsFrom(lines, i, held, inCode)
         == if i == |lines| then Flush(held)
            else if IsFence(lines[i]) && !inCode then Flush(held) + SectionsFrom(lines, i + 1, [lines[i]], true)
            else if !IsFence(lines[i]) && !inCode && IsHeading(lines[i])
            then Flush(held) + SectionsFrom(lines, i + 1, [lines[i]], false)
            else SectionsFrom(lines, i + 1, held + [lines[i]], if IsFence(lines[i]) then false else inCode)
  {
    hide IsFence, IsHeading, Flush;
    assert held + [] == held && [] + held == held;
    if i < |lines| {
      assert lines[i..][0] == lines[i] && lines[i..][1..] == lines[i + 1..];
      assert [] + (held + [lines[i]]) == held + [lines[i]];
    }
  }

  /** The sections from here on, given those from the next line on. */
  lemma CutHere(lines: seq<string>, i: nat, held: seq<string>, inCode: bool)
    requires Holding(lines, i, held, inCode) && i < |lines|
    requires var next := InCodeAfter(lines[i], inCode);
             if MarkdownStarts(lines)(i) then CutExactly(SectionsFrom(lines, i + 1, [lines[i]], next), lines, i, MarkdownStarts(lines))
             else CutExactly(SectionsFrom(lines, i + 1, held + [lines[i]], next), lines, i - |held|, MarkdownStarts(lines))
    ensures CutExactly(SectionsFrom(lines, i, held, inCode), lines, i - |held|, MarkdownStarts(lines))
  {
    StartsHere(lines, i, inCode);
    hide IsHeading, IsFence, CutExactly, MarkdownStarts, SectionsFrom, FencesBefore, Flush;
    SectionsNext(lines, i, held, inCode);
    if MarkdownStarts(lines)(i) {
      HoldFlush(lines, i, held, inCode, SectionsFrom(lines, i + 1, [lines[i]], InCodeAfter(lines[i], inCode)));
    }
  }

  lemma CutAtEnd(lines: seq<string>, held: seq<string>, inCode: bool)
    requires Holding(lines, |lines|, held, inCode)
    ensures CutExactly(SectionsFrom(lines, |lines|, held, inCode), lines, |lines| - |held|, MarkdownStarts(lines))
  {
    hide IsHeading, IsFence, CutExactly, MarkdownStarts, SectionsFrom, Flush;
    CutEnds(lines, MarkdownStarts(lines));
    HoldFlush(lines, |lines|, held, inCode, []);
    assert Flush(held) + [] == Flush(held);
    SectionsNext(lines, |lines|, held, inCode);
  }

  lemma Within(lines: seq<string>, i: nat, held: seq<string>, inCode: bool)
    requires Holding(lines, i, held, inCode)
    ensures |held| <= i <= |lines| && (inCode <==> FencesBefore(lines, i) % 2 == 1)
  {
  }

  lemma {:induction false} MarkdownCut(lines: seq<string>, i: nat, held: seq<string>, inCode: bool)
    requires Holding(lines, i, held, inCode)
    ensures |held| <= i <= |lines|
    ensures CutExactly(SectionsFrom(lines, i, held, inCode), lines, i - |held|, MarkdownStarts(lines))
    decreases |lines| - i
  {
    hide IsFence, CutExactly, Holding, MarkdownStarts, SectionsFrom;
    Within(lines, i, held, inCode);
    if i == |lines| {
      CutAtEnd(lines, held, inCode);
    } else {
      var next := InCodeAfter(lines[i], inCode);
      if MarkdownStarts(lines)(i) {
        HoldAnew(lines, i, inCode);
        MarkdownCut(lines, i + 1, [lines[i]], next);
      } else {
        HoldOn(lines, i, held, inCode);
        MarkdownCut(lines, i + 1, held + [lines[i]], next);
      }
      CutHere(lines, i, held, inCode);
    }
  }

  // ---- code -----------------------------------------------------------------

  /** A recognised line starts a block, but for the leading imports and the blank line after them. */
  function CodeStarts(lines: seq<string>, p: CodePatterns): nat -> bool {
    (k: nat) => k < |lines| && p.isBoundary(lines[k]) && !PassedOver(lines, FirstImport(lines, 0, p), p, k)
  }

  lemma {:induction false} BlocksCut(lines: seq<string>, bounds: seq<nat>, starts: nat -> bool, j: nat)
    requires Increasing(bounds, |lines|) && bounds[|bounds| - 1] == |lines| && j < |bounds|
    requires forall k :: 0 < k < |lines| ==> (k in bounds <==> starts(k))
    ensures |Blocks(lines, bounds)| == |bounds| - 1
    ensures CutExactly(Blocks(lines, bounds)[j..], lines, bounds[j], starts)
    decreases |bounds| - j
  {
    hide Blocks;
    BlocksLength(lines, bounds);
    var blocks := Blocks(lines, bounds);
    if j < |bounds| - 1 {
      BlocksCut(lines, bounds, starts, j + 1);
      BlockAt(lines, bounds, j);
      assert blocks[j..][0] == blocks[j] && blocks[j..][1..] == blocks[j + 1..];
      assert bounds[j] in bounds;
      forall k | bounds[j] < k < bounds[j + 1]
        ensures !starts(k)
      {
        NoneBetween(bounds, |lines|, j, k);
      }
    }
  }

  lemma NoneBetween(bounds: seq<nat>, limit: nat, j: nat, k: nat)
    requires Increasing(bounds, limit) && j < |bounds| - 1 && bounds[j] < k < bounds[j + 1]
    ensures k !in bounds
  {
    forall m | 0 <= m < |bounds|
      ensures bounds[m] != k
    {
      assert m <= j || j + 1 <= m;
    }
  }

  lemma CodeCut(lines: seq<string>, p: CodePatterns)
    requires lines != []
    ensures var bounds := Boundaries(lines, p);
            Increasing(bounds, |lines|) && CutExactly(Blocks(lines, bounds), lines, 0, CodeStarts(lines, p))
  {
    hide Blocks, PassedOver, FirstImport, Cuts;
    BoundariesIncrease(lines, p);
    var bounds := Boundaries(lines, p);
    forall k | 0 < k < |lines|
      ensures k in bounds <==> CodeStarts(lines, p)(k)
    {
      CutsExact(lines, 0, p, k);
      assert bounds == [0] + Cuts(lines, 0, p, false, false) + [|lines|];
    }
    BlocksCut(lines, bounds, CodeStarts(lines, p), 0);
    assert Blocks(lines, bounds)[0..] == Blocks(lines, bounds);
  }

  // ---- the line chunkers ----------------------------------------------------

  lemma HeadingLaw(text: string, size: int, overlap: int)
    requires !Blank(text)
    ensures ChunkedAt(text, HeadingChunks(text, size, overlap), size, overlap, HeadingStarts(SplitLines(text)))
  {
    hide AllBecome, CutExactly, Emit, SplitLines, HeadingSections, HeadingStarts;
    var lines := SplitLines(text);
    assert lines[0..] == lines && lines[0..0] == [];
    HeadingsCut(lines, 0, []);
    EmitBecomes(JoinEach(HeadingSections(lines, []), "\n"), size, overlap);
  }

  lemma MarkdownLaw(text: string, size: int, overlap: int)
    requires !Blank(text)
    ensures ChunkedAt(text, MarkdownChunks(text, size, overlap), size, overlap, MarkdownStarts(SplitLines(text)))
  {
    hide AllBecome, CutExactly, Emit, SplitLines, MarkdownSections, MarkdownStarts;
    var lines := SplitLines(text);
    assert lines[0..] == lines && lines[0..0] == [];
    MarkdownCut(lines, 0, [], false);
    EmitBecomes(JoinEach(MarkdownSections(lines, [], [], false), "\n"), size, overlap);
  }

  lemma CodeLaw(text: string, size: int, overlap: int, p: CodePatterns)
    requires !Blank(text)
    ensures ChunkedAt(text, CodeChunks(text, size, overlap, p), size, overlap, CodeStarts(SplitLines(text), p))
  {
    hide AllBecome, CutExactly, Emit, SplitLines, Blocks, Boundaries, CodeStarts;
    CodeCut(SplitLines(text), p);
    CodeFallbackIdle(text, size, overlap, p);
    EmitBecomes(JoinEach(CodeBlocks(text, p), "\n"), size, overlap);
  }

  // ---- a code block that fits -----------------------------------------------

  /** Where a section starts and where it ends. */
  ghost predicate SectionAt(lines: seq<string>, i: nat, end: nat, starts: nat -> bool) {
    && i < end <= |lines| && (i == 0 || starts(i)) && (end == |lines| || starts(end))
    && forall k :: i < k < end ==> !starts(k)
  }

  lemma {:induction false} SectionIsCut(sections: seq<seq<string>>, lines: seq<string>, at: nat, starts: nat -> bool, i: nat, end: nat)
    requires CutExactly(sections, lines, at, starts) && SectionAt(lines, i, end, starts) && at <= i
    ensures lines[i..end] in sections
    decreases |sections|
  {
    var next := at + |sections[0]|;
    assert CutExactly(sections[1..], lines, next, starts);
    if i == at {
      assert next == end;
    } else {
      SectionIsCut(sections[1..], lines, next, starts, i, end);
    }
  }

  lemma {:induction false} InConcat(parts: seq<seq<string>>, i: nat, chunk: string)
    requires i < |parts| && chunk in parts[i]
    ensures chunk in Concat(parts)
  {
    if i < |parts| - 1 {
      InConcat(parts[..|parts| - 1], i, chunk);
    }
  }

  /** A section that fits and shows something is a chunk as it is. */
  lemma FittingSectionWhole(text: string, chunks: seq<string>, size: int, overlap: int, starts: nat -> bool, i: nat, end: nat)
    requires ChunkedAt(text, chunks, size, overlap, starts) && SectionAt(SplitLines(text), i, end, starts)
    requires var content := Join(SplitLines(text)[i..end], "\n"); !Blank(content) && Max(1, |content| / 4) <= size / 4
    ensures Join(SplitLines(text)[i..end], "\n") in chunks
  {
    hide CutExactly, Blank, Join, PackedAs, SplitLines, Concat;
    var lines := SplitLines(text);
    var sections :| CutExactly(sections, lines, 0, starts) && AllBecome(JoinEach(sections, "\n"), chunks, size, overlap);
    SectionIsCut(sections, lines, 0, starts, i, end);
    var j :| 0 <= j < |sections| && sections[j] == lines[i..end];
    var contents := JoinEach(sections, "\n");
    assert contents[j] == Join(lines[i..end], "\n");
    var parts: seq<seq<string>> :| |parts| == |contents| && Concat(parts) == chunks
      && forall k :: 0 <= k < |contents| ==> BecomesChunks(contents[k], parts[k], size, overlap);
    assert BecomesChunks(contents[j], parts[j], size, overlap);
    InConcat(parts, j, contents[j]);
  }

  lemma {:induction false} FencesInside(lines: seq<string>, i: nat, k: nat)
    requires i < k <= |lines| && IsFence(lines[i]) && forall m :: i < m < k ==> !IsFence(lines[m])
    ensures FencesBefore(lines, k) == FencesBefore(lines, i) + 1
  {
    hide IsFence;
    if k > i + 1 {
      FencesInside(lines, i, k - 1);
    }
  }

  /** No line of a Markdown code block, from the one after its opening fence to its closing fence, starts a section: if
      the block's section fits, no chunk boundary falls inside the block. */
  lemma BlockStaysWhole(lines: seq<string>, i: nat, j: nat)
    requires i < j < |lines| && IsFence(lines[i]) && FencesBefore(lines, i) % 2 == 0
    requires forall m :: i < m < j ==> !IsFence(lines[m])
    ensures MarkdownStarts(lines)(i) && forall k :: i < k <= j ==> !MarkdownStarts(lines)(k)
  {
    hide IsFence, IsHeading;
    forall k | i < k <= j
      ensures !MarkdownStarts(lines)(k)
    {
      FencesInside(lines, i, k);
    }
  }

  lemma FenceShows(lines: seq<string>)
    requires lines != [] && IsFence(lines[0])
    ensures !Blank(Join(lines, "\n"))
  {
    hide Visible, VisibleAll, Blank, Join, Strip, IsFence;
    FenceIsVisible(lines[0]);
    NewlineIsBlank();
    VisibleJoin(lines, "\n");
    assert lines == [lines[0]] + lines[1..];
    VisibleAllAppend([lines[0]], lines[1..]);
    VisibleAllOne(lines[0]);
    BlankHasNothingVisible(Join(lines, "\n"));
  }

  lemma FenceIsVisible(line: string)
    requires IsFence(line)
    ensures Visible(line) != ""
  {
    StripEmptyIff(line);
    BlankHasNothingVisible(line);
    hide Visible, Blank, Strip;
  }

  lemma NewlineIsBlank()
    ensures Blank("\n")
  {
  }

  /** So a Markdown code block whose section fits is whole in one chunk, with what follows it in its section. */
  lemma FittingBlockWhole(text: string, chunks: seq<string>, size: int, overlap: int, i: nat, j: nat, end: nat)
    requires ChunkedAt(text, chunks, size, overlap, MarkdownStarts(SplitLines(text)))
    requires var lines := SplitLines(text);
             && i < j < |lines| && IsFence(lines[i]) && IsFence(lines[j]) && FencesBefore(lines, i) % 2 == 0
             && (forall m :: i < m < j ==> !IsFence(lines[m]))
             && SectionAt(lines, i, end, MarkdownStarts(lines))
    requires Max(1, |Join(SplitLines(text)[i..end], "\n")| / 4) <= size / 4
    ensures j < end && Join(SplitLines(text)[i..end], "\n") in chunks
  {
    hide SplitLines, IsHeading, FencesBefore, Join, ChunkedAt;
    var lines := SplitLines(text);
    BlockStaysWhole(lines, i, j);
    hide IsFence, MarkdownStarts;
    assert end > j;
    FenceShows(lines[i..end]);
    FittingSectionWhole(text, chunks, size, overlap, MarkdownStarts(lines), i, end);
  }

  // ---- windows --------------------------------------------------------------

  function Offset(start: int, stride: int, i: int): int {
    start + i * stride
  }

  /** The windows from a position on: one every `stride` characters, up to the first that reaches the end, or after
      which no character is left to start one at. */
  ghost predicate WindowsFrom(windows: seq<string>, text: string, size: int, stride: int, start: int) {
    && windows != []
    && (forall i :: 0 <= i < |windows| ==> WindowIs(windows[i], text, size, Offset(start, stride, i)))
    && (forall i :: 0 <= i < |windows| - 1 ==> Offset(start, stride, i) + size < |text|)
    && var last := Offset(start, stride, |windows| - 1);
       last + size >= |text| || last + stride >= |text|
  }

  ghost predicate WindowIs(window: string, text: string, size: int, at: int) {
    0 <= at < |text| && 0 <= size && window == text[at..Min(at + size, |text|)]
  }

  /** An overlap of a window or more leaves a stride of one. */
  function Stride(size: int, overlap: int): int {
    if overlap >= size then 1 else size - overlap
  }

  ghost predicate WindowedAs(text: string, chunks: seq<string>, size: int, overlap: int) {
    exists windows :: WindowsFrom(windows, text, size, Stride(size, overlap), 0) && chunks == NonBlank(windows)
  }

  lemma WindowsFromCons(first: string, rest: seq<string>, text: string, size: int, stride: int, start: int)
    requires WindowIs(first, text, size, start) && start + size < |text| && WindowsFrom(rest, text, size, stride, start + stride)
    ensures WindowsFrom([first] + rest, text, size, stride, start)
  {
    hide WindowIs;
    var all := [first] + rest;
    forall i | 0 <= i < |all|
      ensures i > 0 ==> Offset(start, stride, i) == Offset(start + stride, stride, i - 1)
      ensures Offset(start, stride, 0) == start
    {
      assert i * stride == (i - 1) * stride + stride;
    }
    assert Offset(start, stride, |all| - 1) == Offset(start + stride, stride, |rest| - 1);
    forall i | 0 <= i < |all|
      ensures WindowIs(all[i], text, size, Offset(start, stride, i))
      ensures i < |all| - 1 ==> Offset(start, stride, i) + size < |text|
    {
      if i > 0 {
        assert all[i] == rest[i - 1];
      }
    }
  }

  lemma WindowsFromOne(window: string, text: string, size: int, stride: int, start: int)
    requires WindowIs(window, text, size, start) && (start + size >= |text| || start + stride >= |text|)
    ensures WindowsFrom([window], text, size, stride, start)
  {
  }

  lemma {:induction false} WindowsAreFrom(text: string, size: nat, overlap: int, start: nat)
    requires size >= 1 && overlap < size && start < |text|
    ensures WindowsFrom(Windows(text, size, overlap, start), text, size, size - overlap, start)
    decreases |text| - start
  {
    hide WindowsFrom, Windows;
    var next := start + size - overlap;
    var first := WindowAt(text, size, start);
    FirstWindow(text, size, overlap, start);
    assert [first] + [] == [first];
    if start + size >= |text| {
      WindowsFromOne(first, text, size, size - overlap, start);
    } else if next >= |text| {
      assert Windows(text, size, overlap, next) == [] by { NoWindow(text, size, overlap, next); }
      WindowsFromOne(first, text, size, size - overlap, start);
    } else {
      WindowsAreFrom(text, size, overlap, next);
      WindowsFromCons(first, Windows(text, size, overlap, next), text, size, size - overlap, start);
    }
  }

  lemma NoWindow(text: string, size: nat, overlap: int, start: nat)
    requires size >= 1 && overlap < size && start >= |text|
    ensures Windows(text, size, overlap, start) == []
  {
  }

  lemma WindowLaw(text: string, size: int, overlap: int, fuel: nat)
    requires !Blank(text) && size >= 1 && SlidingChunks(text, size, overlap, fuel).Some?
    ensures WindowedAs(text, SlidingChunks(text, size, overlap, fuel).value, size, overlap)
  {
    hide WindowsFrom, Windows, NonBlank, SlidingChunks;
    SlidingIsWindows(text, size, overlap, fuel);
    assert text != "";
    WindowsAreFrom(text, size, Clamp(size, overlap), 0);
    assert size - Clamp(size, overlap) == Stride(size, overlap);
  }
}
