/** Chunking a document: choose a strategy, cut the text, and number the chunks. */
module ChunkDocument {
  import opened Common
  import opened Text
  import opened SentencePacker
  import opened Sections
  import opened SlidingWindow
  import opened ChunkLaws

  datatype Strategy = Auto | Semantic | Markdown | Code | Heading | Window | Unknown(name: string)

  datatype ContentType = MarkdownText | CodeText | PlainText

  /** What the chunker recognises and computes with functions that are not modelled. */
  datatype Tools = Tools(detect: string -> ContentType, patterns: CodePatterns, digest: string -> string)

  datatype Chunk = Chunk(content: string, index: nat, page: int, tokenCount: int, charCount: nat,
                         hash: string, strategy: Strategy)

  const PAGE_SIZE := 2000

  function Page(offset: nat): int {
    Max(1, offset / PAGE_SIZE + 1)
  }

  function Resolve(strategy: Strategy, text: string, tools: Tools): Strategy {
    if strategy == Auto then
      match tools.detect(text)
      case MarkdownText => Markdown
      case CodeText => Code
      case PlainText => Semantic
    else strategy
  }

  /** The texts of the chunks of a document; the window strategy gets at most `fuel` rounds. */
  function RawChunks(text: string, size: int, overlap: int, strategy: Strategy, tools: Tools, fuel: nat): Option<seq<string>> {
    if Blank(text) then Some([])
    else
      match Resolve(strategy, text, tools)
      case Markdown => Some(MarkdownChunks(text, size, overlap))
      case Code => Some(CodeChunks(text, size, overlap, tools.patterns))
      case Heading => Some(HeadingChunks(text, size, overlap))
      case Window => SlidingChunks(text, size, overlap, fuel)
      case _ => Some(SemanticChunks(text, size, overlap))
  }

  function Contents(chunks: seq<Chunk>): seq<string> {
    seq(|chunks|, i requires 0 <= i < |chunks| => chunks[i].content)
  }

  /** Chunk number i: its text, and what is derived from it and from the texts before it. */
  ghost predicate Labelled(chunks: seq<Chunk>, strategy: Strategy, tools: Tools) {
    forall i :: 0 <= i < |chunks| ==>
      && chunks[i].index == i
      && chunks[i].page == Page(|Concat(Contents(chunks)[..i])|)
      && chunks[i].tokenCount == Tokens(chunks[i].content)
      && chunks[i].charCount == |chunks[i].content|
      && chunks[i].hash == tools.digest(chunks[i].content)
      && chunks[i].strategy == strategy
  }

  lemma NothingLabelled(strategy: Strategy, tools: Tools)
    ensures Labelled([], strategy, tools) && Contents([]) == [] && Concat<char>([]) == []
  {
  }

  lemma ConcatSnoc(parts: seq<string>, part: string)
    ensures Concat(parts + [part]) == Concat(parts) + part
  {
    assert (parts + [part])[..|parts|] == parts;
  }

  /** A chunk numbered by its place and paged by what came before extends a labelled list. */
  lemma LabelNext(chunks: seq<Chunk>, chunk: Chunk, strategy: Strategy, tools: Tools)
    requires Labelled(chunks, strategy, tools)
    requires chunk == Chunk(chunk.content, |chunks|, Page(|Concat(Contents(chunks))|), Tokens(chunk.content),
                            |chunk.content|, tools.digest(chunk.content), strategy)
    ensures Labelled(chunks + [chunk], strategy, tools)
    ensures Contents(chunks + [chunk]) == Contents(chunks) + [chunk.content]
  {
    hide Page, Concat, Tokens;
    var all := chunks + [chunk];
    assert Contents(all) == Contents(chunks) + [chunk.content];
    forall i | 0 <= i < |all|
      ensures Contents(all)[..i] == Contents(chunks)[..i]
    {
    }
    assert Contents(chunks)[..|chunks|] == Contents(chunks);
  }

  ghost predicate AllMarked(chunks: seq<Chunk>, strategy: Strategy) {
    forall i :: 0 <= i < |chunks| ==> chunks[i].strategy == strategy
  }

  /** What each strategy promises of a text that is not blank, and how its chunks are marked.  Markdown, asked for or
      detected, cuts at headings and opening fences outside code; code at the recognised lines; headings at headings;
      windows lie at their places; everything else packs sentences. */
  ghost predicate StrategyLaw(text: string, size: int, overlap: int, strategy: Strategy, tools: Tools, chunks: seq<Chunk>) {
    var contents, lines, found := Contents(chunks), SplitLines(text), tools.detect(text);
    && (strategy.Markdown? || (strategy.Auto? && found.MarkdownText?) ==>
          ChunkedAt(text, contents, size, overlap, MarkdownStarts(lines)) && AllMarked(chunks, Markdown))
    && (strategy.Code? || (strategy.Auto? && found.CodeText?) ==>
          ChunkedAt(text, contents, size, overlap, CodeStarts(lines, tools.patterns)) && AllMarked(chunks, Code))
    && (strategy.Heading? ==> ChunkedAt(text, contents, size, overlap, HeadingStarts(lines)) && AllMarked(chunks, Heading))
    && (strategy.Window? && size >= 1 ==> WindowedAs(text, contents, size, overlap) && AllMarked(chunks, Window))
    && (strategy.Semantic? || (strategy.Auto? && found.PlainText?) ==>
          PackedAs(text, contents, size, overlap) && AllMarked(chunks, Semantic))
    && (strategy.Unknown? ==> PackedAs(text, contents, size, overlap) && AllMarked(chunks, strategy))
  }

  lemma RawFollowsLaw(text: string, size: int, overlap: int, strategy: Strategy, tools: Tools, fuel: nat, chunks: seq<Chunk>)
    requires !Blank(text) && RawChunks(text, size, overlap, strategy, tools, fuel) == Some(Contents(chunks))
    requires AllMarked(chunks, Resolve(strategy, text, tools))
    ensures StrategyLaw(text, size, overlap, strategy, tools, chunks)
  {
    hide Blank, MarkdownChunks, CodeChunks, HeadingChunks, SemanticChunks, SlidingChunks, Contents, AllMarked, ChunkedAt, PackedAs,
      WindowedAs, MarkdownStarts, CodeStarts, HeadingStarts, SplitLines;
    match Resolve(strategy, text, tools)
    case Markdown => MarkdownLaw(text, size, overlap);
    case Code => CodeLaw(text, size, overlap, tools.patterns);
    case Heading => HeadingLaw(text, size, overlap);
    case Window =>
      if size >= 1 {
        WindowLaw(text, size, overlap, fuel);
      }
    case _ => PackerCovers(text, size, overlap);
  }

  lemma LabelsMark(chunks: seq<Chunk>, strategy: Strategy, tools: Tools)
    requires Labelled(chunks, strategy, tools)
    ensures AllMarked(chunks, strategy)
  {
  }

  method Chunked(text: string, size: int, overlap: int, strategy: Strategy, tools: Tools, fuel: nat)
    returns (r: Option<seq<Chunk>>)
    ensures r.Some? <==> RawChunks(text, size, overlap, strategy, tools, fuel).Some?
    ensures r.Some? ==> Contents(r.value) == RawChunks(text, size, overlap, strategy, tools, fuel).value
                        && Labelled(r.value, Resolve(strategy, text, tools), tools)
    ensures r.Some? ==> if Blank(text) then r.value == [] else StrategyLaw(text, size, overlap, strategy, tools, r.value)
  {
    hide StrategyLaw, AllMarked, Blank, MarkdownChunks, CodeChunks, HeadingChunks, SemanticChunks, SlidingChunks, Contents, Labelled;
    StripEmptyIff(text);
    NothingLabelled(Resolve(strategy, text, tools), tools);
    if text == "" || Strip(text) == "" {
      return Some([]);
    }
    var chosen := Resolve(strategy, text, tools);
    var raw;
    match chosen {
      case Markdown => raw := ChunkMarkdown(text, size, overlap);
      case Code => raw := ChunkCode(text, size, overlap, tools.patterns);
      case Heading => raw := ChunkHeading(text, size, overlap);
      case Window =>
        var slid := ChunkSlidingWindow(text, size, overlap, fuel);
        if slid.None? {
          return None;
        }
        raw := slid.value;
      case _ => raw := ChunkSemantic(text, size, overlap);
    }
    var chunks := LabelAll(raw, chosen, tools);
    LabelsMark(chunks, chosen, tools);
    RawFollowsLaw(text, size, overlap, strategy, tools, fuel, chunks);
    return Some(chunks);
  }

  method LabelAll(raw: seq<string>, chosen: Strategy, tools: Tools) returns (chunks: seq<Chunk>)
    ensures Contents(chunks) == raw && Labelled(chunks, chosen, tools)
  {
    hide Tokens, Page, Contents, Concat, Labelled;
    NothingLabelled(chosen, tools);
    chunks := [];
    var offset := 0;
    for i := 0 to |raw|
      invariant |chunks| == i && offset == |Concat(raw[..i])|
      invariant Contents(chunks) == raw[..i]
      invariant Labelled(chunks, chosen, tools)
    {
      var content := raw[i];
      var chunk := Chunk(content, i, Page(offset), Tokens(content), |content|, tools.digest(content), chosen);
      LabelNext(chunks, chunk, chosen, tools);
      chunks := chunks + [chunk];
      assert raw[..i + 1] == raw[..i] + [content];
      ConcatSnoc(raw[..i], content);
      offset := offset + |content|;
    }
    assert raw[..|raw|] == raw;
  }

  /** Chunking ends but for the window strategy with a size that is not positive and an overlap not below it. */
  lemma ChunkingEndsIff(text: string, size: int, overlap: int, strategy: Strategy, tools: Tools)
    ensures (exists fuel: nat :: RawChunks(text, size, overlap, strategy, tools, fuel).Some?)
       <==> Blank(text) || strategy != Window || size >= 1 || overlap < size
  {
    hide Blank, SlidingChunks, MarkdownChunks, CodeChunks, HeadingChunks, SemanticChunks;
    SlidingEndsIff(text, size, overlap);
    if !Blank(text) && strategy == Window {
      forall fuel: nat
        ensures RawChunks(text, size, overlap, strategy, tools, fuel) == SlidingChunks(text, size, overlap, fuel)
      {
      }
    } else {
      assert RawChunks(text, size, overlap, strategy, tools, 0).Some?;
    }
  }

  /** Chunking loses nothing visible: whatever the strategy and the size, with no overlap the chunks in order show
      exactly what the document shows. */
  lemma ChunkingLosesNothing(text: string, size: int, strategy: Strategy, tools: Tools, fuel: nat)
    ensures var r := RawChunks(text, size, 0, strategy, tools, fuel);
            r.Some? ==> VisibleAll(r.value) == Visible(text)
  {
    hide Blank, Visible, MarkdownChunks, CodeChunks, HeadingChunks, SemanticChunks, WindowChunks, SlidingChunks;
    BlankHasNothingVisible(text);
    NothingVisible();
    SemanticLosesNothing(text, size, 0);
    LineChunkersLoseNothing(text, size, 0, tools.patterns);
    if strategy == Window {
      if size >= 1 {
        SlidingIsWindows(text, size, 0, fuel);
        WindowsLoseNothing(text, size);
      } else {
        SlidingEndsIff(text, size, 0);
      }
    }
  }
}
