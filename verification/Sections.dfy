/** The chunkers that first cut a text into runs of lines: Markdown, headings and code. */
module Sections {
  import opened Common
  import opened Text
  import opened SentencePacker

  // ---- lines ----------------------------------------------------------------

  function LeadingHashes(line: string): nat {
    if line != "" && line[0] == '#' then 1 + LeadingHashes(line[1..]) else 0
  }

  /** One to six hashes and then whitespace. */
  predicate IsHeading(line: string) {
    var k := LeadingHashes(line);
    1 <= k <= 6 && k < |line| && IsSpace(line[k])
  }

  /** A line whose first visible characters are three backquotes. */
  predicate IsFence(line: string) {
    "```" <= Strip(line)
  }

  ghost predicate FenceFree(lines: seq<string>) {
    forall i :: 0 <= i < |lines| ==> !IsFence(lines[i])
  }

  /** No line after the first is a heading. */
  ghost predicate HeadingFirst(lines: seq<string>) {
    forall i :: 0 < i < |lines| ==> !IsHeading(lines[i])
  }

  // ---- Markdown -------------------------------------------------------------

  function Flush(current: seq<string>): seq<seq<string>> {
    if current == [] then [] else [current]
  }

  /** The sections of a Markdown text, given the section and the code block under construction. */
  function MarkdownSections(lines: seq<string>, current: seq<string>, code: seq<string>, inCode: bool): seq<seq<string>>
    decreases |lines|
  {
    if lines == [] then Flush(current + code)
    else
      var line, rest := lines[0], lines[1..];
      if IsFence(line) then
        if inCode then MarkdownSections(rest, current + (code + [line]), [], false)
        else Flush(current) + MarkdownSections(rest, [], [line], true)
      else if inCode then MarkdownSections(rest, current, code + [line], true)
      else if IsHeading(line) then Flush(current) + MarkdownSections(rest, [line], code, false)
      else MarkdownSections(rest, current + [line], code, false)
  }

  /** A section without code: no fence line, and a heading only at its start. */
  ghost predicate PlainSection(s: seq<string>) {
    FenceFree(s) && HeadingFirst(s)
  }

  /** An opening fence and the lines of a block not yet closed. */
  ghost predicate OpenBlock(s: seq<string>) {
    s != [] && IsFence(s[0]) && FenceFree(s[1..])
  }

  /** A section that starts with one whole code block, from its opening to its closing fence, and holds no
      other fence and, after the block, no heading. */
  ghost predicate BlockSection(s: seq<string>, close: nat) {
    && 0 < close < |s|
    && IsFence(s[0]) && IsFence(s[close])
    && (forall i :: 0 < i < |s| && i != close ==> !IsFence(s[i]))
    && (forall i :: close < i < |s| ==> !IsHeading(s[i]))
  }

  /** A finished section; only a block that the text never closes lacks its closing fence. */
  ghost predicate SectionShape(s: seq<string>, last: bool) {
    PlainSection(s) || (exists close: nat :: BlockSection(s, close)) || (last && OpenBlock(s))
  }

  predicate StartsSection(line: string) {
    IsFence(line) || IsHeading(line)
  }

  /** What the loop holds: outside code a section in the making, inside code nothing but an open block. */
  ghost predicate MarkdownState(current: seq<string>, code: seq<string>, inCode: bool) {
    if inCode then current == [] && OpenBlock(code)
    else code == [] && (current == [] || SectionShape(current, false))
  }

  lemma CloseBlock(code: seq<string>, line: string)
    requires OpenBlock(code) && IsFence(line)
    ensures SectionShape(code + [line], false)
  {
    var s := code + [line];
    forall i | 0 < i < |s| && i != |code|
      ensures !IsFence(s[i])
    {
      assert s[i] == code[1..][i - 1];
    }
    assert BlockSection(s, |code|);
  }

  lemma GrowSection(current: seq<string>, line: string)
    requires current == [] || SectionShape(current, false)
    requires !IsFence(line) && !IsHeading(line)
    ensures SectionShape(current + [line], false)
  {
    if close: nat :| BlockSection(current, close) {
      assert BlockSection(current + [line], close);
    } else {
      assert PlainSection(current + [line]);
    }
  }

  lemma GrowBlock(code: seq<string>, line: string)
    requires OpenBlock(code) && !IsFence(line)
    ensures OpenBlock(code + [line])
  {
    assert (code + [line])[1..] == code[1..] + [line];
  }

  lemma FlushConcat(current: seq<string>, rest: seq<seq<string>>)
    ensures Concat(Flush(current) + rest) == current + Concat(rest)
  {
    ConcatAppend(Flush(current), rest);
    assert [current][..0] == [];
    assert Concat([current]) == Concat([]) + current == current;
  }

  /** Every line is in exactly one section, in order, and no section is empty. */
  lemma {:induction false} MarkdownKeepsLines(lines: seq<string>, current: seq<string>, code: seq<string>, inCode: bool)
    requires MarkdownState(current, code, inCode)
    ensures var sections := MarkdownSections(lines, current, code, inCode);
            Concat(sections) == current + code + lines && (forall s :: s in sections ==> s != [])
    decreases |lines|
  {
    hide IsFence, IsHeading, SectionShape, OpenBlock, Concat;
    if lines == [] {
      FlushConcat(current + code, []);
      assert Flush(current + code) + [] == Flush(current + code);
      NoLines();
    } else {
      var line, rest := lines[0], lines[1..];
      assert lines == [line] + rest;
      if IsFence(line) {
        if inCode {
          CloseBlock(code, line);
          assert [] + (code + [line]) == code + [line];
          MarkdownKeepsLines(rest, code + [line], [], false);
        } else {
          OneFence(line);
          MarkdownKeepsLines(rest, [], [line], true);
          FlushConcat(current, MarkdownSections(rest, [], [line], true));
        }
      } else if inCode {
        GrowBlock(code, line);
        MarkdownKeepsLines(rest, current, code + [line], true);
      } else if IsHeading(line) {
        OneHeading(line);
        MarkdownKeepsLines(rest, [line], code, false);
        FlushConcat(current, MarkdownSections(rest, [line], code, false));
      } else {
        GrowSection(current, line);
        MarkdownKeepsLines(rest, current + [line], code, false);
      }
    }
  }

  lemma OneFence(line: string)
    requires IsFence(line)
    ensures OpenBlock([line])
  {
  }

  lemma OneHeading(line: string)
    requires !IsFence(line)
    ensures SectionShape([line], false)
  {
    assert PlainSection([line]);
  }

  /** All sections have their shape, and all but perhaps the first start at a heading or an opening fence. */
  ghost predicate SectionsShaped(sections: seq<seq<string>>, first: bool)
    decreases |sections|
  {
    sections == [] ||
    (sections[0] != []
     && SectionShape(sections[0], |sections| == 1)
     && (first || StartsSection(sections[0][0]))
     && SectionsShaped(sections[1..], false))
  }

  /** Whatever is under construction starts a section, unless it is the first. */
  ghost predicate Started(current: seq<string>, code: seq<string>, first: bool) {
    first || (current + code != [] && StartsSection((current + code)[0]))
  }

  lemma {:induction false} MarkdownShapes(lines: seq<string>, current: seq<string>, code: seq<string>, inCode: bool, first: bool)
    requires MarkdownState(current, code, inCode) && Started(current, code, first)
    ensures SectionsShaped(MarkdownSections(lines, current, code, inCode), first)
    decreases |lines|
  {
    hide IsFence, IsHeading;
    if lines == [] {
      if current + code != [] {
        ShapeAtEnd(current, code, inCode);
        assert [current + code][1..] == [];
      }
    } else {
      hide SectionShape, OpenBlock;
      var line, rest := lines[0], lines[1..];
      if IsFence(line) {
        if inCode {
          CloseBlock(code, line);
          assert [] + (code + [line]) == code + [line];
          FirstOfBlock(code, line);
          MarkdownShapes(rest, code + [line], [], false, first);
        } else {
          OneFence(line);
          assert [] + [line] == [line];
          MarkdownShapes(rest, [], [line], true, current == [] && first);
          FlushShapes(current, MarkdownSections(rest, [], [line], true), first);
        }
      } else if inCode {
        GrowBlock(code, line);
        FirstOfBlock(code, line);
        MarkdownShapes(rest, current, code + [line], true, first);
      } else if IsHeading(line) {
        OneHeading(line);
        MarkdownShapes(rest, [line], code, false, current == [] && first);
        FlushShapes(current, MarkdownSections(rest, [line], code, false), first);
      } else {
        GrowSection(current, line);
        assert current != [] ==> (current + [line] + code)[0] == (current + code)[0];
        MarkdownShapes(rest, current + [line], code, false, first);
      }
    }
  }

  lemma FirstOfBlock(code: seq<string>, line: string)
    requires OpenBlock(code)
    ensures code != [] && StartsSection(code[0]) && (code + [line])[0] == code[0]
  {
  }

  lemma ShapeAtEnd(current: seq<string>, code: seq<string>, inCode: bool)
    requires MarkdownState(current, code, inCode) && current + code != []
    ensures SectionShape(current + code, true)
  {
    assert current + [] == current && [] + code == code;
  }

  lemma FlushShapes(current: seq<string>, sections: seq<seq<string>>, first: bool)
    requires SectionsShaped(sections, current == [] && first)
    requires current == [] || (SectionShape(current, false) && (first || StartsSection(current[0])))
    requires current == [] ==> first || SectionsShaped(sections, false)
    ensures SectionsShaped(Flush(current) + sections, first)
  {
    if current == [] {
      assert [] + sections == sections;
    } else {
      ShapeStays(current);
      assert ([current] + sections)[1..] == sections;
    }
  }

  lemma ShapeStays(s: seq<string>)
    requires SectionShape(s, false)
    ensures SectionShape(s, true)
  {
  }

  /** The Markdown splitter is lossless and fence-safe, for every text: joining the sections' contents by
      line breaks gives the text back; a code block lies whole in one section, which it opens; no heading
      inside a block splits it; and sections begin only at headings and opening fences. */
  lemma MarkdownLossless(text: string)
    ensures var sections := MarkdownSections(SplitLines(text), [], [], false);
            Join(JoinEach(sections, "\n"), "\n") == text && SectionsShaped(sections, true)
  {
    var lines := SplitLines(text);
    var sections := MarkdownSections(lines, [], [], false);
    MarkdownKeepsLines(lines, [], [], false);
    MarkdownShapes(lines, [], [], false, true);
    assert [] + [] + lines == lines;
    forall i | 0 <= i < |sections|
      ensures sections[i] != []
    {
      assert sections[i] in sections;
    }
    JoinGroups(sections, "\n");
    SplitLinesJoins(text);
  }

  // ---- headings -------------------------------------------------------------

  function HeadingSections(lines: seq<string>, current: seq<string>): seq<seq<string>>
    decreases |lines|
  {
    if lines == [] then Flush(current)
    else if IsHeading(lines[0]) then Flush(current) + HeadingSections(lines[1..], [lines[0]])
    else HeadingSections(lines[1..], current + [lines[0]])
  }

  lemma GrowHeading(current: seq<string>, line: string)
    requires HeadingFirst(current) && !IsHeading(line)
    ensures HeadingFirst(current + [line])
  {
  }

  lemma OneLine(line: string)
    ensures HeadingFirst([line])
  {
  }

  lemma {:induction false} HeadingsKeepLines(lines: seq<string>, current: seq<string>)
    requires HeadingFirst(current)
    ensures Concat(HeadingSections(lines, current)) == current + lines
    ensures forall s :: s in HeadingSections(lines, current) ==> s != [] && HeadingFirst(s)
    decreases |lines|
  {
    hide IsHeading, HeadingFirst, Concat;
    if lines == [] {
      FlushConcat(current, []);
      assert Flush(current) + [] == Flush(current);
      NoLines();
    } else {
      var line, rest := lines[0], lines[1..];
      assert lines == [line] + rest;
      if IsHeading(line) {
        OneLine(line);
        HeadingsKeepLines(rest, [line]);
        FlushConcat(current, HeadingSections(rest, [line]));
      } else {
        GrowHeading(current, line);
        assert current + lines == current + [line] + rest;
        HeadingsKeepLines(rest, current + [line]);
      }
    }
  }

  lemma NoLines()
    ensures Concat<string>([]) == []
  {
  }

  /** The heading splitter is lossless, and a section has a heading only at its start. */
  lemma HeadingsLossless(text: string)
    ensures var sections := HeadingSections(SplitLines(text), []);
            && Join(JoinEach(sections, "\n"), "\n") == text
            && (forall s :: s in sections ==> s != [] && HeadingFirst(s))
  {
    var lines := SplitLines(text);
    var sections := HeadingSections(lines, []);
    HeadingsKeepLines(lines, []);
    assert [] + lines == lines;
    assert forall i :: 0 <= i < |sections| ==> sections[i] in sections;
    JoinGroups(sections, "\n");
    SplitLinesJoins(text);
  }

  // ---- code -----------------------------------------------------------------

  /** How lines of code are recognised; the patterns themselves are not modelled. */
  datatype CodePatterns = CodePatterns(isImport: string -> bool, isBoundary: string -> bool)

  /** The lines from i on at which a new block starts.  The leading imports, and the blank line that ends
      them, are never inspected. */
  function Cuts(lines: seq<string>, i: nat, p: CodePatterns, imported: bool, done: bool): seq<nat>
    requires i <= |lines|
    decreases |lines| - i
  {
    if i == |lines| then []
    else if !done && p.isImport(lines[i]) then Cuts(lines, i + 1, p, true, false)
    else if !done && imported && Strip(lines[i]) == "" then Cuts(lines, i + 1, p, imported, true)
    else
      (if i > 0 && p.isBoundary(lines[i]) then [i] else []) + Cuts(lines, i + 1, p, imported, done || imported)
  }

  /** A strictly increasing list of numbers from lo up to but not including hi. */
  ghost predicate Ascending(s: seq<nat>, lo: nat, hi: nat) {
    && (forall k :: 0 <= k < |s| ==> lo <= s[k] < hi)
    && (forall j, k :: 0 <= j < k < |s| ==> s[j] < s[k])
  }

  lemma AscendingCons(i: nat, s: seq<nat>, hi: nat)
    requires Ascending(s, i + 1, hi) && i < hi
    ensures Ascending([i] + s, i, hi) && Ascending(s, i, hi)
  {
    var t := [i] + s;
    assert forall k :: 1 <= k < |t| ==> t[k] == s[k - 1];
  }

  lemma AscendingSnoc(s: seq<nat>, lo: nat, hi: nat)
    requires Ascending(s, lo, hi)
    ensures Ascending(s + [hi], lo, Max(lo, hi) + 1) || hi < lo
  {
  }

  lemma {:induction false} CutsAscend(lines: seq<string>, i: nat, p: CodePatterns, imported: bool, done: bool)
    requires i <= |lines|
    ensures Ascending(Cuts(lines, i, p, imported, done), Max(1, i), Max(1, |lines|))
    decreases |lines| - i
  {
    hide Strip, Ascending;
    if i == |lines| {
      assert Ascending([], Max(1, i), Max(1, |lines|)) by { NothingAscends(Max(1, i), Max(1, |lines|)); }
    } else {
      if !done && p.isImport(lines[i]) {
        CutsAscend(lines, i + 1, p, true, false);
        AscendingFrom(Cuts(lines, i + 1, p, true, false), i, |lines|);
      } else if !done && imported && Strip(lines[i]) == "" {
        CutsAscend(lines, i + 1, p, imported, true);
        AscendingFrom(Cuts(lines, i + 1, p, imported, true), i, |lines|);
      } else {
        CutsAscend(lines, i + 1, p, imported, done || imported);
        var rest := Cuts(lines, i + 1, p, imported, done || imported);
        AscendingFrom(rest, i, |lines|);
        if i > 0 && p.isBoundary(lines[i]) {
          AscendingCons(i, rest, |lines|);
        } else {
          assert [] + rest == rest;
        }
      }
    }
  }

  lemma NothingAscends(lo: nat, hi: nat)
    ensures Ascending([], lo, hi)
  {
  }

  lemma AscendingFrom(s: seq<nat>, i: nat, hi: nat)
    requires Ascending(s, Max(1, i + 1), Max(1, hi))
    ensures Ascending(s, Max(1, i), Max(1, hi))
  {
  }

  function FirstImport(lines: seq<string>, i: nat, p: CodePatterns): (r: nat)
    requires i <= |lines|
    ensures i <= r <= |lines|
    decreases |lines| - i
  {
    if i == |lines| || p.isImport(lines[i]) then i else FirstImport(lines, i + 1, p)
  }

  function RunEnd(lines: seq<string>, i: nat, p: CodePatterns): (r: nat)
    requires i <= |lines|
    ensures i <= r <= |lines|
    decreases |lines| - i
  {
    if i < |lines| && p.isImport(lines[i]) then RunEnd(lines, i + 1, p) else i
  }

  /** The lines passed over: the first run of imports, and a blank line right after it. */
  predicate PassedOver(lines: seq<string>, first: nat, p: CodePatterns, k: nat)
    requires first <= |lines|
  {
    var end := RunEnd(lines, first, p);
    first <= k < end || (first < end == k < |lines| && Strip(lines[k]) == "")
  }

  lemma {:induction false} CutsAfterImports(lines: seq<string>, i: nat, p: CodePatterns, imported: bool, k: nat)
    requires i <= |lines|
    ensures k in Cuts(lines, i, p, imported, true) <==> i <= k < |lines| && k > 0 && p.isBoundary(lines[k])
    decreases |lines| - i
  {
    hide Strip;
    if i < |lines| {
      CutsAfterImports(lines, i + 1, p, imported, k);
    }
  }

  lemma {:induction false} CutsInImports(lines: seq<string>, i: nat, p: CodePatterns, k: nat)
    requires i <= |lines|
    ensures var end := RunEnd(lines, i, p);
            k in Cuts(lines, i, p, true, false) <==>
              end <= k < |lines| && k > 0 && p.isBoundary(lines[k]) && !(k == end && Strip(lines[k]) == "")
    decreases |lines| - i
  {
    hide Strip;
    if i < |lines| {
      if p.isImport(lines[i]) {
        CutsInImports(lines, i + 1, p, k);
      } else {
        CutsAfterImports(lines, i + 1, p, true, k);
      }
    }
  }

  /** A block starts exactly at the recognised lines after the first line, outside the lines passed over. */
  lemma {:induction false} CutsExact(lines: seq<string>, i: nat, p: CodePatterns, k: nat)
    requires i <= |lines|
    ensures k in Cuts(lines, i, p, false, false) <==>
              i <= k < |lines| && k > 0 && p.isBoundary(lines[k]) && !PassedOver(lines, FirstImport(lines, i, p), p, k)
    decreases |lines| - i
  {
    hide Strip;
    if i < |lines| {
      if p.isImport(lines[i]) {
        CutsInImports(lines, i + 1, p, k);
      } else {
        CutsExact(lines, i + 1, p, k);
      }
    }
  }

  function Boundaries(lines: seq<string>, p: CodePatterns): seq<nat> {
    [0] + Cuts(lines, 0, p, false, false) + [|lines|]
  }

  ghost predicate Increasing(bounds: seq<nat>, limit: nat) {
    && |bounds| >= 1
    && (forall j, k :: 0 <= j < k < |bounds| ==> bounds[j] < bounds[k])
    && bounds[|bounds| - 1] <= limit
  }

  /** The runs of lines between consecutive boundaries. */
  function Blocks(lines: seq<string>, bounds: seq<nat>): seq<seq<string>>
    requires Increasing(bounds, |lines|)
  {
    if |bounds| == 1 then []
    else
      var n := |bounds| - 1;
      Blocks(lines, bounds[..n]) + [lines[bounds[n - 1]..bounds[n]]]
  }

  lemma BoundariesIncrease(lines: seq<string>, p: CodePatterns)
    requires lines != []
    ensures var bounds := Boundaries(lines, p);
            Increasing(bounds, |lines|) && bounds[0] == 0 && bounds[|bounds| - 1] == |lines|
  {
    hide Cuts;
    CutsAscend(lines, 0, p, false, false);
    var cuts := Cuts(lines, 0, p, false, false);
    AscendingCons(0, cuts, |lines|);
    AscendingSnoc([0] + cuts, 0, |lines|);
  }

  function CodeBlocks(text: string, p: CodePatterns): seq<seq<string>> {
    var lines := SplitLines(text);
    BoundariesIncrease(lines, p);
    Blocks(lines, Boundaries(lines, p))
  }

  lemma {:induction false} BlocksKeepLines(lines: seq<string>, bounds: seq<nat>)
    requires Increasing(bounds, |lines|)
    ensures Concat(Blocks(lines, bounds)) == lines[bounds[0]..bounds[|bounds| - 1]]
    ensures forall i :: 0 <= i < |Blocks(lines, bounds)| ==> Blocks(lines, bounds)[i] != []
  {
    var n := |bounds| - 1;
    if n > 0 {
      BlocksKeepLines(lines, bounds[..n]);
      assert lines[bounds[0]..bounds[n]] == lines[bounds[0]..bounds[n - 1]] + lines[bounds[n - 1]..bounds[n]];
    } else {
      assert lines[bounds[0]..bounds[0]] == [];
    }
  }

  /** The code splitter is lossless whatever its patterns recognise. */
  lemma CodeLossless(text: string, p: CodePatterns)
    ensures Join(JoinEach(CodeBlocks(text, p), "\n"), "\n") == text
  {
    var lines := SplitLines(text);
    var bounds := Boundaries(lines, p);
    BoundariesIncrease(lines, p);
    BlocksKeepLines(lines, bounds);
    assert lines[0..|lines|] == lines;
    JoinGroups(CodeBlocks(text, p), "\n");
    SplitLinesJoins(text);
  }

  // ---- from sections to chunks ----------------------------------------------

  /** A section that fits the limit is a chunk; a larger one goes through the semantic chunker; a blank one
      is skipped. */
  function Emit(contents: seq<string>, chunkSize: int, overlap: int): seq<string> {
    if contents == [] then []
    else
      var n := |contents| - 1;
      Emit(contents[..n], chunkSize, overlap) + EmitOne(contents[n], chunkSize, overlap)
  }

  function EmitOne(content: string, chunkSize: int, overlap: int): seq<string> {
    if Blank(content) then []
    else if Tokens(content) <= chunkSize / CHARS_PER_TOKEN then [content]
    else SemanticChunks(content, chunkSize, overlap)
  }

  lemma EmitOneNotBlank(content: string, chunkSize: int, overlap: int)
    ensures forall c :: c in EmitOne(content, chunkSize, overlap) ==> !Blank(c)
    ensures EmitOne(content, chunkSize, overlap) == [] <==> Blank(content)
  {
    hide Blank, Pack, SplitSentences, Tokens;
    var chunks := SemanticChunks(content, chunkSize, overlap);
    forall c | c in chunks
      ensures !Blank(c)
    {
      var i :| 0 <= i < |chunks| && chunks[i] == c;
      ChunksNotBlank(content, chunkSize, overlap, i);
    }
    if !Blank(content) {
      SentencesCoverText(content);
      PackNotEmpty(SplitSentences(content), chunkSize / CHARS_PER_TOKEN, overlap / CHARS_PER_TOKEN);
    }
  }

  lemma PackNotEmpty(sentences: seq<string>, limit: int, budget: int)
    requires sentences != []
    ensures Pack(sentences, limit, budget, []) != []
  {
    PackHead(sentences[1..], limit, budget, [] + [sentences[0]]);
  }

  lemma {:induction false} EmitNotBlank(contents: seq<string>, chunkSize: int, overlap: int)
    ensures forall c :: c in Emit(contents, chunkSize, overlap) ==> !Blank(c)
    ensures Emit(contents, chunkSize, overlap) == [] <==> forall i :: 0 <= i < |contents| ==> Blank(contents[i])
  {
    hide Blank, EmitOne;
    if contents != [] {
      var n := |contents| - 1;
      EmitNotBlank(contents[..n], chunkSize, overlap);
      EmitOneNotBlank(contents[n], chunkSize, overlap);
    }
  }

  lemma {:induction false} EmitLosesNothing(contents: seq<string>, chunkSize: int, overlap: int)
    requires overlap <= 0
    ensures VisibleAll(Emit(contents, chunkSize, overlap)) == VisibleAll(contents)
  {
    if contents != [] {
      var n := |contents| - 1;
      var content := contents[n];
      EmitLosesNothing(contents[..n], chunkSize, overlap);
      EmitOneShows(content, chunkSize, overlap);
      hide EmitOne, VisibleAll;
      VisibleAllAppend(Emit(contents[..n], chunkSize, overlap), EmitOne(content, chunkSize, overlap));
      VisibleAllAppend(contents[..n], [content]);
      VisibleAllOne(content);
      assert contents == contents[..n] + [content];
    }
  }

  lemma EmitOneShows(content: string, chunkSize: int, overlap: int)
    requires overlap <= 0
    ensures VisibleAll(EmitOne(content, chunkSize, overlap)) == Visible(content)
  {
    hide SemanticChunks, Blank, Visible, VisibleAll, Tokens;
    SemanticLosesNothing(content, chunkSize, overlap);
    VisibleAllOne(content);
    BlankHasNothingVisible(content);
    NothingVisible();
  }

  lemma NothingVisible()
    ensures VisibleAll([]) == ""
  {
  }

  function MarkdownChunks(text: string, chunkSize: int, overlap: int): seq<string> {
    if Blank(text) then []
    else Emit(JoinEach(MarkdownSections(SplitLines(text), [], [], false), "\n"), chunkSize, overlap)
  }

  function HeadingChunks(text: string, chunkSize: int, overlap: int): seq<string> {
    if Blank(text) then [] else Emit(JoinEach(HeadingSections(SplitLines(text), []), "\n"), chunkSize, overlap)
  }

  /** With the fallback for a text none of whose blocks yields a chunk. */
  function CodeChunks(text: string, chunkSize: int, overlap: int, p: CodePatterns): seq<string> {
    if Blank(text) then []
    else
      var chunks := Emit(JoinEach(CodeBlocks(text, p), "\n"), chunkSize, overlap);
      if chunks == [] then SemanticChunks(text, chunkSize, overlap) else chunks
  }

  /** The fallback is never taken: a text that is not blank has a block that is not blank. */
  lemma CodeFallbackIdle(text: string, chunkSize: int, overlap: int, p: CodePatterns)
    requires !Blank(text)
    ensures Emit(JoinEach(CodeBlocks(text, p), "\n"), chunkSize, overlap) != []
  {
    hide Emit, CodeBlocks;
    var contents := JoinEach(CodeBlocks(text, p), "\n");
    CodeLossless(text, p);
    EmitNotBlank(contents, chunkSize, overlap);
    VisibleJoin(contents, "\n");
    BlankHasNothingVisible(text);
    if Emit(contents, chunkSize, overlap) == [] {
      AllBlankShowNothing(contents);
    }
  }

  lemma {:induction false} AllBlankShowNothing(contents: seq<string>)
    requires forall i :: 0 <= i < |contents| ==> Blank(contents[i])
    ensures VisibleAll(contents) == ""
  {
    if contents != [] {
      var n := |contents| - 1;
      AllBlankShowNothing(contents[..n]);
      VisibleAllAppend(contents[..n], [contents[n]]);
      VisibleAllOne(contents[n]);
      BlankHasNothingVisible(contents[n]);
      assert contents == contents[..n] + [contents[n]];
    }
  }

  /** Lossless sections and lossless emission make a lossless chunker. */
  lemma SectionsLoseNothing(text: string, contents: seq<string>, chunkSize: int, overlap: int)
    requires overlap <= 0 && Join(contents, "\n") == text
    ensures VisibleAll(Emit(contents, chunkSize, overlap)) == Visible(text)
  {
    VisibleJoin(contents, "\n");
    EmitLosesNothing(contents, chunkSize, overlap);
  }

  lemma LineChunkersLoseNothing(text: string, chunkSize: int, overlap: int, p: CodePatterns)
    requires overlap <= 0
    ensures VisibleAll(MarkdownChunks(text, chunkSize, overlap)) == Visible(text)
    ensures VisibleAll(HeadingChunks(text, chunkSize, overlap)) == Visible(text)
    ensures VisibleAll(CodeChunks(text, chunkSize, overlap, p)) == Visible(text)
  {
    hide Emit, CodeBlocks, MarkdownSections, HeadingSections, SemanticChunks, SectionsShaped;
    BlankHasNothingVisible(text);
    NothingVisible();
    MarkdownLossless(text);
    SectionsLoseNothing(text, JoinEach(MarkdownSections(SplitLines(text), [], [], false), "\n"), chunkSize, overlap);
    HeadingsLossless(text);
    SectionsLoseNothing(text, JoinEach(HeadingSections(SplitLines(text), []), "\n"), chunkSize, overlap);
    CodeLossless(text, p);
    SectionsLoseNothing(text, JoinEach(CodeBlocks(text, p), "\n"), chunkSize, overlap);
    if !Blank(text) {
      CodeFallbackIdle(text, chunkSize, overlap, p);
    }
  }

  // ---- the loops ------------------------------------------------------------

  /** The section loop shared by the line chunkers. */
  method EmitSections(contents: seq<string>, chunkSize: int, overlap: int) returns (chunks: seq<string>)
    ensures chunks == Emit(contents, chunkSize, overlap)
  {
    hide Blank, SemanticChunks, Tokens;
    chunks := [];
    for i := 0 to |contents|
      invariant chunks == Emit(contents[..i], chunkSize, overlap)
    {
      var content := contents[i];
      StripEmptyIff(content);
      assert contents[..i + 1][..i] == contents[..i];
      if Strip(content) == "" {
        continue;
      }
      if Tokens(content) <= chunkSize / CHARS_PER_TOKEN {
        chunks := chunks + [content];
      } else {
        var sub := ChunkSemantic(content, chunkSize, overlap);
        chunks := chunks + sub;
      }
    }
    assert contents[..|contents|] == contents;
  }

  lemma NothingEmittedIsBlank(contents: seq<string>, chunkSize: int, overlap: int)
    ensures NonBlank(Emit(contents, chunkSize, overlap)) == Emit(contents, chunkSize, overlap)
  {
    hide Blank, Emit;
    EmitNotBlank(contents, chunkSize, overlap);
    var chunks := Emit(contents, chunkSize, overlap);
    assert forall i :: 0 <= i < |chunks| ==> chunks[i] in chunks;
    NonBlankKeepsAll(chunks);
  }

  lemma JoinEachSnoc(groups: seq<seq<string>>, group: seq<string>, sep: string)
    ensures JoinEach(groups + [group], sep) == JoinEach(groups, sep) + [Join(group, sep)]
  {
  }

  method ChunkMarkdown(text: string, chunkSize: int, overlap: int) returns (result: seq<string>)
    ensures result == MarkdownChunks(text, chunkSize, overlap)
  {
    hide IsFence, IsHeading, Emit, Blank, Join, JoinEach, NonBlank;
    StripEmptyIff(text);
    if Strip(text) == "" {
      return [];
    }
    var lines := SplitLines(text);
    var sections: seq<string> := [];
    var currentLines: seq<string> := [];
    var inCodeBlock := false;
    var codeBuffer: seq<string> := [];
    ghost var done: seq<seq<string>> := [];
    JoinEachOfNothing();
    assert lines[0..] == lines;
    for i := 0 to |lines|
      invariant sections == JoinEach(done, "\n")
      invariant MarkdownSections(lines, [], [], false)
             == done + MarkdownSections(lines[i..], currentLines, codeBuffer, inCodeBlock)
    {
      var line := lines[i];
      assert lines[i..][0] == line && lines[i..][1..] == lines[i + 1..];
      if IsFence(line) {
        if inCodeBlock {
          codeBuffer := codeBuffer + [line];
          currentLines := currentLines + codeBuffer;
          codeBuffer := [];
          inCodeBlock := false;
        } else {
          if currentLines != [] {
            JoinEachSnoc(done, currentLines, "\n");
            sections := sections + [Join(currentLines, "\n")];
            done := done + [currentLines];
          }
          currentLines := [];
          codeBuffer := [line];
          inCodeBlock := true;
        }
      } else if inCodeBlock {
        codeBuffer := codeBuffer + [line];
      } else if IsHeading(line) {
        if currentLines != [] {
          JoinEachSnoc(done, currentLines, "\n");
          sections := sections + [Join(currentLines, "\n")];
          done := done + [currentLines];
        }
        currentLines := [line];
      } else {
        currentLines := currentLines + [line];
      }
    }
    assert lines[|lines|..] == [];
    if currentLines != [] || codeBuffer != [] {
      JoinEachSnoc(done, currentLines + codeBuffer, "\n");
      sections := sections + [Join(currentLines + codeBuffer, "\n")];
    } else {
      assert done + [] == done;
    }
    var chunks := EmitSections(sections, chunkSize, overlap);
    NothingEmittedIsBlank(sections, chunkSize, overlap);
    result := DropBlank(chunks);
  }

  lemma JoinEachOfNothing()
    ensures JoinEach([], "\n") == []
  {
  }

  method ChunkHeading(text: string, chunkSize: int, overlap: int) returns (result: seq<string>)
    ensures result == HeadingChunks(text, chunkSize, overlap)
  {
    hide IsHeading, Emit, Blank, Join, JoinEach, NonBlank;
    StripEmptyIff(text);
    if Strip(text) == "" {
      return [];
    }
    var lines := SplitLines(text);
    var sections: seq<string> := [];
    var currentLines: seq<string> := [];
    ghost var done: seq<seq<string>> := [];
    JoinEachOfNothing();
    assert lines[0..] == lines;
    for i := 0 to |lines|
      invariant sections == JoinEach(done, "\n")
      invariant HeadingSections(lines, []) == done + HeadingSections(lines[i..], currentLines)
    {
      var line := lines[i];
      assert lines[i..][0] == line && lines[i..][1..] == lines[i + 1..];
      if IsHeading(line) {
        if currentLines != [] {
          JoinEachSnoc(done, currentLines, "\n");
          sections := sections + [Join(currentLines, "\n")];
          done := done + [currentLines];
        }
        currentLines := [line];
      } else {
        currentLines := currentLines + [line];
      }
    }
    assert lines[|lines|..] == [];
    if currentLines != [] {
      JoinEachSnoc(done, currentLines, "\n");
      sections := sections + [Join(currentLines, "\n")];
    } else {
      assert done + [] == done;
    }
    var chunks := EmitSections(sections, chunkSize, overlap);
    NothingEmittedIsBlank(sections, chunkSize, overlap);
    result := DropBlank(chunks);
  }

  /** The boundary loop of the code chunker. */
  method FindBoundaries(lines: seq<string>, p: CodePatterns) returns (boundaries: seq<nat>)
    ensures boundaries == Boundaries(lines, p)
  {
    hide Strip;
    boundaries := [0];
    var imports: seq<string> := [];
    var importDone := false;
    for i := 0 to |lines|
      invariant |boundaries| >= 1 && (i > 0 ==> boundaries[|boundaries| - 1] < i) && (i == 0 ==> boundaries == [0])
      invariant [0] + Cuts(lines, 0, p, false, false) == boundaries + Cuts(lines, i, p, imports != [], importDone)
    {
      var line := lines[i];
      if !importDone {
        if p.isImport(line) {
          imports := imports + [line];
          continue;
        } else if imports != [] && Strip(line) == "" {
          importDone := true;
          continue;
        } else if imports != [] {
          importDone := true;
        }
      }
      if p.isBoundary(line) {
        if i > 0 && boundaries[|boundaries| - 1] != i {
          assert boundaries + ([i] + Cuts(lines, i + 1, p, imports != [], importDone))
              == (boundaries + [i]) + Cuts(lines, i + 1, p, imports != [], importDone);
          boundaries := boundaries + [i];
        }
      }
    }
    boundaries := boundaries + [|lines|];
  }

  method ChunkCode(text: string, chunkSize: int, overlap: int, p: CodePatterns) returns (result: seq<string>)
    ensures result == CodeChunks(text, chunkSize, overlap, p)
  {
    hide Blank, SemanticChunks, Tokens, NonBlank, Join, Cuts;
    StripEmptyIff(text);
    if Strip(text) == "" {
      return [];
    }
    var lines := SplitLines(text);
    var boundaries := FindBoundaries(lines, p);
    BoundariesIncrease(lines, p);
    var chunks: seq<string> := [];
    ghost var contents := JoinEach(CodeBlocks(text, p), "\n");
    ghost var blocks := Blocks(lines, boundaries);
    BlocksLength(lines, boundaries);
    var i := 0;
    while i < |boundaries| - 1
      invariant 0 <= i <= |boundaries| - 1
      invariant chunks == Emit(contents[..i], chunkSize, overlap)
    {
      var start, end := boundaries[i], boundaries[i + 1];
      BlockAt(lines, boundaries, i);
      var block := Join(lines[start..end], "\n");
      assert contents[i] == block;
      assert contents[..i + 1][..i] == contents[..i];
      StripEmptyIff(block);
      if Strip(block) == "" {
        i := i + 1;
        continue;
      }
      if Tokens(block) <= chunkSize / CHARS_PER_TOKEN {
        chunks := chunks + [block];
      } else {
        var sub := ChunkSemantic(block, chunkSize, overlap);
        chunks := chunks + sub;
      }
      i := i + 1;
    }
    assert contents[..i] == contents;
    if chunks == [] && Strip(text) != "" {
      chunks := ChunkSemantic(text, chunkSize, overlap);
      NothingToDrop(text, chunkSize, overlap);
    } else {
      NothingEmittedIsBlank(contents, chunkSize, overlap);
    }
    result := DropBlank(chunks);
  }

  lemma {:induction false} BlocksLength(lines: seq<string>, bounds: seq<nat>)
    requires Increasing(bounds, |lines|)
    ensures |Blocks(lines, bounds)| == |bounds| - 1
  {
    if |bounds| > 1 {
      BlocksLength(lines, bounds[..|bounds| - 1]);
    }
  }

  lemma {:induction false} BlockAt(lines: seq<string>, bounds: seq<nat>, i: nat)
    requires Increasing(bounds, |lines|) && i < |bounds| - 1
    ensures |Blocks(lines, bounds)| == |bounds| - 1
    ensures Blocks(lines, bounds)[i] == lines[bounds[i]..bounds[i + 1]]
  {
    BlocksLength(lines, bounds);
    var n := |bounds| - 1;
    if i < n - 1 {
      BlockAt(lines, bounds[..n], i);
    } else {
      BlocksLength(lines, bounds[..n]);
    }
  }
}
