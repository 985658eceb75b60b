/** The semantic chunker: sentences packed greedily up to a token limit, each chunk starting with the last
    sentences of the one before that fit the overlap. */
module SentencePacker {
  import opened Common
  import opened Text

  const CHARS_PER_TOKEN := 4

  function Tokens(s: string): int {
    Max(1, |s| / CHARS_PER_TOKEN)
  }

  function TokenSum(ss: seq<string>): int {
    Sum(ss, Tokens)
  }

  /** The last sentences of a chunk that fit a token budget. */
  function Kept(current: seq<string>, budget: int): seq<string> {
    if current == [] then []
    else
      var n := |current| - 1;
      if Tokens(current[n]) <= budget then Kept(current[..n], budget - Tokens(current[n])) + [current[n]] else []
  }

  /** The groups of sentences that become chunks, given the group under construction. */
  function Pack(sentences: seq<string>, limit: int, budget: int, current: seq<string>): seq<seq<string>>
    decreases |sentences|
  {
    if sentences == [] then (if current == [] then [] else [current])
    else if current != [] && TokenSum(current) + Tokens(sentences[0]) > limit then
      [current] + Pack(sentences[1..], limit, budget, Kept(current, budget) + [sentences[0]])
    else
      Pack(sentences[1..], limit, budget, current + [sentences[0]])
  }

  function Groups(text: string, chunkSize: int, overlap: int): seq<seq<string>> {
    Pack(SplitSentences(text), chunkSize / CHARS_PER_TOKEN, overlap / CHARS_PER_TOKEN, [])
  }

  /** The chunks: each group of sentences joined by single spaces. */
  function SemanticChunks(text: string, chunkSize: int, overlap: int): seq<string> {
    JoinEach(Groups(text, chunkSize, overlap), " ")
  }

  // ---- kept sentences -------------------------------------------------------

  /** The last m sentences of a group. */
  function Last(group: seq<string>, m: nat): seq<string>
    requires m <= |group|
  {
    group[|group| - m..]
  }

  lemma TokensNonNegative(ss: seq<string>)
    ensures TokenSum(ss) >= 0
  {
    SumAtLeast(ss, Tokens);
  }

  lemma TokenSumSnoc(ss: seq<string>, s: string)
    ensures TokenSum(ss + [s]) == TokenSum(ss) + Tokens(s)
  {
    SumSnoc(ss, s, Tokens);
  }

  /** Kept is a suffix that fits. */
  lemma {:induction false} KeptFits(current: seq<string>, budget: int)
    ensures |Kept(current, budget)| <= |current|
    ensures Kept(current, budget) == Last(current, |Kept(current, budget)|)
    ensures TokenSum(Kept(current, budget)) <= Max(0, budget)
  {
    hide TokenSum;
    if current == [] {
      assert TokenSum([]) == 0 by { EmptySum(); }
    } else {
      var n := |current| - 1;
      EmptySum();
      if Tokens(current[n]) <= budget {
        KeptFits(current[..n], budget - Tokens(current[n]));
        TokenSumSnoc(Kept(current[..n], budget - Tokens(current[n])), current[n]);
      }
    }
  }

  lemma EmptySum()
    ensures TokenSum([]) == 0
  {
  }

  /** No longer suffix fits. */
  lemma {:induction false} KeptIsLongest(current: seq<string>, budget: int, m: nat)
    requires |Kept(current, budget)| < m <= |current|
    ensures TokenSum(Last(current, m)) > budget
  {
    hide TokenSum;
    var n := |current| - 1;
    TokenSumSnoc(Last(current[..n], m - 1), current[n]);
    assert Last(current, m) == Last(current[..n], m - 1) + [current[n]];
    if Tokens(current[n]) <= budget {
      KeptIsLongest(current[..n], budget - Tokens(current[n]), m - 1);
    } else {
      TokensNonNegative(Last(current[..n], m - 1));
    }
  }

  lemma NothingKept(current: seq<string>, budget: int)
    requires budget <= 0
    ensures Kept(current, budget) == []
  {
  }

  // ---- the greedy cover, stated without the algorithm -----------------------

  /** Groups that chain: each later group continues the kept part of the one before with new sentences, and
      all new sentences in order are the whole list. */
  ghost predicate Chained(groups: seq<seq<string>>, before: seq<string>, budget: int)
    decreases |groups|
  {
    groups == [] ||
    (Kept(before, budget) < groups[0] && Chained(groups[1..], groups[0], budget))
  }

  /** The new sentences of each group, in order. */
  function Fresh(groups: seq<seq<string>>, before: seq<string>, budget: int): seq<string>
    decreases |groups|
  {
    if groups == [] then []
    else
      var kept := Kept(before, budget);
      (if |kept| <= |groups[0]| then groups[0][|kept|..] else []) + Fresh(groups[1..], groups[0], budget)
  }

  /** Inside a group every sentence after the first new one fitted the limit when it was added; the first
      new one is always taken. */
  ghost predicate Filled(group: seq<string>, kept: nat, limit: int) {
    forall m :: kept + 1 < m <= |group| ==> TokenSum(group[..m]) <= limit
  }

  ghost predicate AllFilled(groups: seq<seq<string>>, before: seq<string>, limit: int, budget: int)
    decreases |groups|
  {
    groups == [] ||
    (Filled(groups[0], |Kept(before, budget)|, limit) && AllFilled(groups[1..], groups[0], limit, budget))
  }

  /** A group ends only where its next sentence would not fit. */
  ghost predicate AllFull(groups: seq<seq<string>>, limit: int, budget: int)
    decreases |groups|
  {
    |groups| <= 1 ||
    (var k := |Kept(groups[0], budget)|;
     k < |groups[1]| && TokenSum(groups[0]) + Tokens(groups[1][k]) > limit && AllFull(groups[1..], limit, budget))
  }

  /** A cover of a list of sentences by sliding groups. */
  ghost predicate SlidingCover(groups: seq<seq<string>>, sentences: seq<string>, limit: int, budget: int) {
    && Chained(groups, [], budget)
    && Fresh(groups, [], budget) == sentences
    && AllFilled(groups, [], limit, budget)
    && AllFull(groups, limit, budget)
  }

  // ---- the packer yields the cover ------------------------------------------

  /** A group under construction that the packer may hold after the groups ending in `before`. */
  ghost predicate UnderWay(current: seq<string>, before: seq<string>, limit: int, budget: int) {
    if current == [] then before == []
    else Kept(before, budget) < current && Filled(current, |Kept(before, budget)|, limit)
  }

  /** The new sentences of the group under construction. */
  function NewPart(current: seq<string>, before: seq<string>, budget: int): seq<string> {
    var kept := Kept(before, budget);
    if |kept| <= |current| then current[|kept|..] else []
  }

  /** Taking the next sentence keeps the group under way. */
  lemma TakeKeepsUnderWay(current: seq<string>, before: seq<string>, limit: int, budget: int, s: string)
    requires UnderWay(current, before, limit, budget)
    requires current == [] || TokenSum(current) + Tokens(s) <= limit
    ensures UnderWay(current + [s], before, limit, budget)
    ensures NewPart(current + [s], before, budget) == NewPart(current, before, budget) + [s]
  {
    var next := current + [s];
    var k := |Kept(before, budget)|;
    TokenSumSnoc(current, s);
    hide TokenSum;
    forall m | k + 1 < m <= |next|
      ensures TokenSum(next[..m]) <= limit
    {
      if m <= |current| {
        assert next[..m] == current[..m];
      } else {
        assert next[..m] == next;
      }
    }
  }

  /** Starting over with the kept sentences and one new one is under way too. */
  lemma RestartUnderWay(current: seq<string>, limit: int, budget: int, s: string)
    requires current != []
    ensures UnderWay(Kept(current, budget) + [s], current, limit, budget)
    ensures NewPart(Kept(current, budget) + [s], current, budget) == [s]
  {
  }

  lemma {:induction false} PackHead(sentences: seq<string>, limit: int, budget: int, current: seq<string>)
    requires current != []
    ensures Pack(sentences, limit, budget, current) != [] && current <= Pack(sentences, limit, budget, current)[0]
    decreases |sentences|
  {
    if sentences != [] && TokenSum(current) + Tokens(sentences[0]) <= limit {
      PackHead(sentences[1..], limit, budget, current + [sentences[0]]);
    }
  }

  lemma {:induction false} PackChained(sentences: seq<string>, limit: int, budget: int, current: seq<string>, before: seq<string>)
    requires UnderWay(current, before, limit, budget)
    ensures var groups := Pack(sentences, limit, budget, current);
            Chained(groups, before, budget)
            && Fresh(groups, before, budget) == NewPart(current, before, budget) + sentences
    decreases |sentences|
  {
    hide Kept, TokenSum, Tokens, Filled;
    if sentences == [] {
      if current != [] {
        assert [current][1..] == [];
      } else {
        assert Kept([], budget) == [] by { KeptOfNothing(budget); }
      }
    } else {
      var s := sentences[0];
      assert sentences == [s] + sentences[1..];
      if current != [] && TokenSum(current) + Tokens(s) > limit {
        RestartUnderWay(current, limit, budget, s);
        PackChained(sentences[1..], limit, budget, Kept(current, budget) + [s], current);
        var rest := Pack(sentences[1..], limit, budget, Kept(current, budget) + [s]);
        assert ([current] + rest)[1..] == rest;
      } else {
        TakeKeepsUnderWay(current, before, limit, budget, s);
        PackChained(sentences[1..], limit, budget, current + [s], before);
      }
    }
  }

  lemma KeptOfNothing(budget: int)
    ensures Kept([], budget) == []
  {
  }

  lemma {:induction false} PackFilled(sentences: seq<string>, limit: int, budget: int, current: seq<string>, before: seq<string>)
    requires UnderWay(current, before, limit, budget)
    ensures AllFilled(Pack(sentences, limit, budget, current), before, limit, budget)
    decreases |sentences|
  {
    hide Kept, TokenSum, Tokens, Filled;
    if sentences == [] {
      if current != [] {
        assert [current][1..] == [];
      }
    } else {
      var s := sentences[0];
      if current != [] && TokenSum(current) + Tokens(s) > limit {
        RestartUnderWay(current, limit, budget, s);
        PackFilled(sentences[1..], limit, budget, Kept(current, budget) + [s], current);
        var rest := Pack(sentences[1..], limit, budget, Kept(current, budget) + [s]);
        assert ([current] + rest)[1..] == rest;
      } else {
        TakeKeepsUnderWay(current, before, limit, budget, s);
        PackFilled(sentences[1..], limit, budget, current + [s], before);
      }
    }
  }

  lemma {:induction false} PackFull(sentences: seq<string>, limit: int, budget: int, current: seq<string>)
    ensures AllFull(Pack(sentences, limit, budget, current), limit, budget)
    decreases |sentences|
  {
    hide Kept, TokenSum, Tokens;
    if sentences != [] {
      var s := sentences[0];
      if current != [] && TokenSum(current) + Tokens(s) > limit {
        var kept := Kept(current, budget);
        PackFull(sentences[1..], limit, budget, kept + [s]);
        PackHead(sentences[1..], limit, budget, kept + [s]);
        var rest := Pack(sentences[1..], limit, budget, kept + [s]);
        assert ([current] + rest)[1..] == rest;
        assert rest[0][|kept|] == s;
      } else {
        PackFull(sentences[1..], limit, budget, current + [s]);
      }
    }
  }

  /** The packer's groups are a sliding cover of the sentences. */
  lemma PackIsSlidingCover(sentences: seq<string>, limit: int, budget: int)
    ensures SlidingCover(Pack(sentences, limit, budget, []), sentences, limit, budget)
  {
    PackChained(sentences, limit, budget, [], []);
    PackFilled(sentences, limit, budget, [], []);
    PackFull(sentences, limit, budget, []);
    assert NewPart([], [], budget) == [];
    assert [] + sentences == sentences;
  }

  // ---- the cover is unique --------------------------------------------------

  /** Groups with the first one partly built: the packer finishes exactly these. */
  lemma {:induction false} CoverForcesPack(groups: seq<seq<string>>, before: seq<string>, current: seq<string>,
                                           limit: int, budget: int)
    requires groups != [] && current <= groups[0] && UnderWay(current, before, limit, budget)
    requires Chained(groups, before, budget) && AllFilled(groups, before, limit, budget) && AllFull(groups, limit, budget)
    ensures Pack(groups[0][|current|..] + Fresh(groups[1..], groups[0], budget), limit, budget, current) == groups
    decreases |groups|, |groups[0]| - |current|
  {
    hide Kept, Tokens, TokenSum;
    var rest := groups[0][|current|..] + Fresh(groups[1..], groups[0], budget);
    if |current| < |groups[0]| {
      var s := groups[0][|current|];
      assert rest[0] == s && rest[1..] == groups[0][|current| + 1..] + Fresh(groups[1..], groups[0], budget);
      assert groups[0][..|current| + 1] == current + [s];
      if current != [] {
        TokenSumSnoc(current, s);
        assert TokenSum(groups[0][..|current| + 1]) <= limit;
      }
      TakeKeepsUnderWay(current, before, limit, budget, s);
      CoverForcesPack(groups, before, current + [s], limit, budget);
    } else if |groups| == 1 {
      assert current == groups[0];
      assert groups == [current] && groups[1..] == [];
    } else {
      assert current == groups[0];
      var kept := Kept(current, budget);
      var s := groups[1][|kept|];
      RestartUnderWay(current, limit, budget, s);
      var later := groups[1..];
      assert rest == later[0][|kept|..] + Fresh(later[1..], later[0], budget);
      assert rest[0] == s && rest[1..] == later[0][|kept| + 1..] + Fresh(later[1..], later[0], budget);
      CoverForcesPack(later, current, kept + [s], limit, budget);
      assert groups == [current] + later;
    }
  }

  /** A list of sentences has exactly one sliding cover, and the packer computes it. */
  lemma CoverIsUnique(groups: seq<seq<string>>, sentences: seq<string>, limit: int, budget: int)
    ensures SlidingCover(groups, sentences, limit, budget) <==> groups == Pack(sentences, limit, budget, [])
  {
    PackIsSlidingCover(sentences, limit, budget);
    if SlidingCover(groups, sentences, limit, budget) && groups != [] {
      KeptOfNothing(budget);
      CoverForcesPack(groups, [], [], limit, budget);
      assert groups[0][|Kept([], budget)|..] == groups[0] == groups[0][0..];
    }
  }

  // ---- every chunk is a contiguous run --------------------------------------

  /** Where each group ends in the list of sentences, when the first new sentence is number `at`. */
  function Ends(groups: seq<seq<string>>, before: seq<string>, budget: int, at: int): seq<int>
    decreases |groups|
  {
    if groups == [] then []
    else
      var end := at + |groups[0]| - |Kept(before, budget)|;
      [end] + Ends(groups[1..], groups[0], budget, end)
  }

  /** One group further: the kept suffix of what came before and the new sentences are one run. */
  lemma RunStep(sentences: seq<string>, at: nat, before: seq<string>, kept: seq<string>, added: seq<string>, rest: seq<string>)
    requires |kept| <= |before| <= at <= |sentences| && sentences[at - |before|..at] == before
    requires kept == Last(before, |kept|) && sentences[at..] == added + rest
    ensures at + |added| <= |sentences|
    ensures sentences[at - |kept|..at + |added|] == kept + added
    ensures sentences[at + |added|..] == rest
  {
    assert sentences == sentences[..at] + (added + rest);
    assert sentences[at - |kept|..at] == kept;
    assert sentences[at..at + |added|] == added;
  }

  /** A group is the run of the given end. */
  ghost predicate RunAt(sentences: seq<string>, group: seq<string>, end: int) {
    |group| <= end <= |sentences| && sentences[end - |group|..end] == group
  }

  lemma {:induction false} ChainedRuns(groups: seq<seq<string>>, before: seq<string>, budget: int, sentences: seq<string>, at: int)
    requires Chained(groups, before, budget) && |before| <= at <= |sentences|
    requires sentences[at - |before|..at] == before && sentences[at..] == Fresh(groups, before, budget)
    ensures var ends := Ends(groups, before, budget, at);
            && |ends| == |groups|
            && (forall i :: 0 <= i < |ends| ==> at < ends[i] && RunAt(sentences, groups[i], ends[i]))
            && (forall i, j :: 0 <= i < j < |ends| ==> ends[i] < ends[j])
            && (groups != [] ==> ends[|ends| - 1] == |sentences|)
    decreases |groups|
  {
    if groups != [] {
      var kept := Kept(before, budget);
      KeptFits(before, budget);
      hide Kept, TokenSum, RunAt;
      var added := groups[0][|kept|..];
      var end := at + |added|;
      RunStep(sentences, at, before, kept, added, Fresh(groups[1..], groups[0], budget));
      assert groups[0] == kept + added;
      FirstRun(sentences, groups[0], at - |kept|, end);
      ChainedRuns(groups[1..], groups[0], budget, sentences, end);
      var ends := Ends(groups, before, budget, at);
      assert ends[1..] == Ends(groups[1..], groups[0], budget, end);
      forall i | 0 <= i < |ends|
        ensures at < ends[i] && RunAt(sentences, groups[i], ends[i])
      {
        if i > 0 {
          assert groups[i] == groups[1..][i - 1] && ends[i] == ends[1..][i - 1];
        }
      }
      forall i, j | 0 <= i < j < |ends|
        ensures ends[i] < ends[j]
      {
        assert ends[j] == ends[1..][j - 1];
        if i > 0 {
          assert ends[i] == ends[1..][i - 1];
        }
      }
    }
  }

  lemma FirstRun(sentences: seq<string>, group: seq<string>, start: nat, end: nat)
    requires start <= end <= |sentences| && sentences[start..end] == group
    ensures RunAt(sentences, group, end) && end - |group| == start
  {
  }

  /** Every chunk is a contiguous run of sentences; the runs end ever later, the last at the end; and each
      later run starts with exactly the kept suffix of the one before and adds at least one sentence. */
  lemma ChunksAreSlidingRuns(text: string, chunkSize: int, overlap: int)
    ensures var groups := Groups(text, chunkSize, overlap);
            var budget := overlap / CHARS_PER_TOKEN;
            var sentences := SplitSentences(text);
            var ends := Ends(groups, [], budget, 0);
            && |ends| == |groups|
            && (forall i :: 0 <= i < |ends| ==> RunAt(sentences, groups[i], ends[i]))
            && (forall i, j :: 0 <= i < j < |ends| ==> ends[i] < ends[j])
            && (groups != [] ==> ends[|ends| - 1] == |sentences|)
            && (forall i :: 0 < i < |groups| ==> Kept(groups[i - 1], budget) < groups[i])
  {
    hide Kept, RunAt, SplitSentences;
    var sentences := SplitSentences(text);
    var budget := overlap / CHARS_PER_TOKEN;
    var groups := Groups(text, chunkSize, overlap);
    PackIsSlidingCover(sentences, chunkSize / CHARS_PER_TOKEN, budget);
    assert sentences[0..] == sentences && sentences[0..0] == [];
    ChainedRuns(groups, [], budget, sentences, 0);
    ChainedLinks(groups, [], budget);
  }

  lemma {:induction false} ChainedLinks(groups: seq<seq<string>>, before: seq<string>, budget: int)
    requires Chained(groups, before, budget)
    ensures forall i :: 0 < i < |groups| ==> Kept(groups[i - 1], budget) < groups[i]
    decreases |groups|
  {
    hide Kept;
    if groups != [] {
      ChainedLinks(groups[1..], groups[0], budget);
      forall i | 0 < i < |groups|
        ensures Kept(groups[i - 1], budget) < groups[i]
      {
        if i > 1 {
          assert groups[1..][i - 1] == groups[i] && groups[1..][i - 2] == groups[i - 1];
        }
      }
    }
  }

  // ---- sizes ----------------------------------------------------------------

  lemma {:induction false} PackBounded(sentences: seq<string>, limit: int, budget: int, current: seq<string>, largest: int)
    requires largest >= 0 && forall i :: 0 <= i < |sentences| ==> Tokens(sentences[i]) <= largest
    requires TokenSum(current) <= Max(limit, Max(0, budget) + largest)
    ensures forall i :: 0 <= i < |Pack(sentences, limit, budget, current)| ==>
              TokenSum(Pack(sentences, limit, budget, current)[i]) <= Max(limit, Max(0, budget) + largest)
    decreases |sentences|
  {
    EmptySum();
    hide TokenSum, Tokens;
    if sentences != [] {
      var s := sentences[0];
      if current != [] && TokenSum(current) + Tokens(s) > limit {
        KeptFits(current, budget);
        TokenSumSnoc(Kept(current, budget), s);
        PackBounded(sentences[1..], limit, budget, Kept(current, budget) + [s], largest);
      } else {
        TokenSumSnoc(current, s);
        PackBounded(sentences[1..], limit, budget, current + [s], largest);
      }
    }
  }

  lemma {:induction false} JoinedLength(group: seq<string>)
    requires group != []
    ensures |Join(group, " ")| <= 8 * TokenSum(group) - 1
  {
    var n := |group| - 1;
    TokenSumSnoc(group[..n], group[n]);
    assert group == group[..n] + [group[n]];
    if n == 0 {
      assert group[..n] == [];
      EmptySum();
    } else {
      JoinedLength(group[..n]);
    }
  }

  /** The size bound: a chunk holds at most as many tokens as the limit, or as the overlap and the largest
      sentence together, whichever is more, and at most eight characters less one for each. */
  lemma ChunksBounded(text: string, chunkSize: int, overlap: int, largest: int, i: nat)
    requires largest >= 0 && forall s :: s in SplitSentences(text) ==> Tokens(s) <= largest
    requires i < |Groups(text, chunkSize, overlap)|
    ensures var bound := Max(chunkSize / CHARS_PER_TOKEN, Max(0, overlap / CHARS_PER_TOKEN) + largest);
            && TokenSum(Groups(text, chunkSize, overlap)[i]) <= bound
            && |SemanticChunks(text, chunkSize, overlap)[i]| <= 8 * bound - 1
  {
    var sentences := SplitSentences(text);
    EmptySum();
    PackBounded(sentences, chunkSize / CHARS_PER_TOKEN, overlap / CHARS_PER_TOKEN, [], largest);
    GroupsNonEmpty(sentences, chunkSize / CHARS_PER_TOKEN, overlap / CHARS_PER_TOKEN, []);
    JoinedLength(Groups(text, chunkSize, overlap)[i]);
  }

  lemma {:induction false} GroupsNonEmpty(sentences: seq<string>, limit: int, budget: int, current: seq<string>)
    ensures forall i :: 0 <= i < |Pack(sentences, limit, budget, current)| ==> Pack(sentences, limit, budget, current)[i] != []
    decreases |sentences|
  {
    if sentences != [] {
      if current != [] && TokenSum(current) + Tokens(sentences[0]) > limit {
        GroupsNonEmpty(sentences[1..], limit, budget, Kept(current, budget) + [sentences[0]]);
      } else {
        GroupsNonEmpty(sentences[1..], limit, budget, current + [sentences[0]]);
      }
    }
  }

  // ---- nothing visible is lost ----------------------------------------------

  lemma {:induction false} FreshIsEverything(groups: seq<seq<string>>, before: seq<string>, budget: int)
    requires budget <= 0
    ensures Fresh(groups, before, budget) == Concat(groups)
    decreases |groups|
  {
    if groups != [] {
      NothingKept(before, budget);
      FreshIsEverything(groups[1..], groups[0], budget);
      ConcatAppend([groups[0]], groups[1..]);
      assert groups == [groups[0]] + groups[1..];
      assert [groups[0]][..0] == [];
      assert Concat([groups[0]]) == Concat([]) + groups[0] == groups[0];
    }
  }

  lemma {:induction false} VisibleGroups(groups: seq<seq<string>>)
    ensures VisibleAll(JoinEach(groups, " ")) == VisibleAll(Concat(groups))
  {
    if groups != [] {
      var n := |groups| - 1;
      VisibleGroups(groups[..n]);
      var chunks := JoinEach(groups, " ");
      assert chunks == JoinEach(groups[..n], " ") + [Join(groups[n], " ")];
      VisibleAllAppend(JoinEach(groups[..n], " "), [Join(groups[n], " ")]);
      VisibleAllOne(Join(groups[n], " "));
      VisibleJoin(groups[n], " ");
      VisibleAllAppend(Concat(groups[..n]), groups[n]);
    }
  }

  /** Without overlap the chunks show exactly what the text shows. */
  lemma SemanticLosesNothing(text: string, chunkSize: int, overlap: int)
    requires overlap <= 0
    ensures VisibleAll(SemanticChunks(text, chunkSize, overlap)) == Visible(text)
  {
    var sentences := SplitSentences(text);
    var groups := Groups(text, chunkSize, overlap);
    PackIsSlidingCover(sentences, chunkSize / CHARS_PER_TOKEN, overlap / CHARS_PER_TOKEN);
    FreshIsEverything(groups, [], overlap / CHARS_PER_TOKEN);
    VisibleGroups(groups);
    SentencesCoverText(text);
  }

  /** With overlap too, every chunk shows something, so filtering blank chunks drops none. */
  lemma ChunksNotBlank(text: string, chunkSize: int, overlap: int, i: nat)
    requires i < |SemanticChunks(text, chunkSize, overlap)|
    ensures !Blank(SemanticChunks(text, chunkSize, overlap)[i])
  {
    hide Kept, Pack, SplitSentences, Blank, Ends, NoBreakInside;
    var sentences := SplitSentences(text);
    var groups := Groups(text, chunkSize, overlap);
    ChunksAreSlidingRuns(text, chunkSize, overlap);
    GroupsNonEmpty(sentences, chunkSize / CHARS_PER_TOKEN, overlap / CHARS_PER_TOKEN, []);
    SentencesCoverText(text);
    var g := groups[i];
    var end := Ends(groups, [], overlap / CHARS_PER_TOKEN, 0)[i];
    assert g[0] == sentences[end - |g|];
    assert g[0] in sentences;
    JoinShowsFirst(g);
  }

  lemma JoinShowsFirst(g: seq<string>)
    requires g != [] && !Blank(g[0])
    ensures !Blank(Join(g, " "))
  {
    VisibleJoin(g, " ");
    assert g == [g[0]] + g[1..];
    VisibleAllAppend([g[0]], g[1..]);
    VisibleAllOne(g[0]);
    BlankHasNothingVisible(g[0]);
    BlankHasNothingVisible(Join(g, " "));
  }

  // ---- the loop -------------------------------------------------------------

  /** The chunks that are not blank. */
  function NonBlank(chunks: seq<string>): seq<string> {
    if chunks == [] then []
    else NonBlank(chunks[..|chunks| - 1]) + if Blank(chunks[|chunks| - 1]) then [] else [chunks[|chunks| - 1]]
  }

  lemma {:induction false} NonBlankKeepsAll(chunks: seq<string>)
    requires forall i :: 0 <= i < |chunks| ==> !Blank(chunks[i])
    ensures NonBlank(chunks) == chunks
  {
    if chunks != [] {
      NonBlankKeepsAll(chunks[..|chunks| - 1]);
    }
  }

  method DropBlank(chunks: seq<string>) returns (kept: seq<string>)
    ensures kept == NonBlank(chunks)
  {
    kept := [];
    for i := 0 to |chunks|
      invariant kept == NonBlank(chunks[..i])
    {
      assert chunks[..i + 1][..i] == chunks[..i];
      StripEmptyIff(chunks[i]);
      if Strip(chunks[i]) != "" {
        kept := kept + [chunks[i]];
      }
    }
    assert chunks[..|chunks|] == chunks;
  }

  /** The sentences a finished chunk hands to the next one. */
  method Overlap(current: seq<string>, overlap: int) returns (keep: seq<string>)
    requires overlap > 0
    ensures keep == Kept(current, overlap / CHARS_PER_TOKEN)
  {
    hide TokenSum;
    var overlapTokens := 0;
    keep := [];
    var i := |current|;
    EmptySum();
    assert current[..i] == current;
    while i > 0
      invariant 0 <= i <= |current|
      invariant keep == current[i..] && overlapTokens == TokenSum(keep)
      invariant Kept(current, overlap / CHARS_PER_TOKEN)
             == Kept(current[..i], overlap / CHARS_PER_TOKEN - overlapTokens) + keep
    {
      var s := current[i - 1];
      assert current[..i][..i - 1] == current[..i - 1];
      if overlapTokens + Tokens(s) > overlap / CHARS_PER_TOKEN {
        break;
      }
      TokenSumCons(s, keep);
      keep := [s] + keep;
      overlapTokens := overlapTokens + Tokens(s);
      i := i - 1;
    }
  }

  lemma {:induction false} TokenSumCons(s: string, ss: seq<string>)
    ensures TokenSum([s] + ss) == Tokens(s) + TokenSum(ss)
  {
    EmptySum();
    if ss == [] {
      assert [s] + ss == [] + [s];
      TokenSumSnoc([], s);
    } else {
      var n := |ss| - 1;
      TokenSumCons(s, ss[..n]);
      assert [s] + ss == [s] + ss[..n] + [ss[n]];
      assert ss == ss[..n] + [ss[n]];
      TokenSumSnoc([s] + ss[..n], ss[n]);
      TokenSumSnoc(ss[..n], ss[n]);
    }
  }

  lemma JoinEachCons(group: seq<string>, rest: seq<seq<string>>)
    ensures JoinEach([group] + rest, " ") == [Join(group, " ")] + JoinEach(rest, " ")
  {
  }

  lemma NoGroups()
    ensures JoinEach([], " ") == []
  {
  }

  lemma NothingToDrop(text: string, chunkSize: int, overlap: int)
    ensures NonBlank(SemanticChunks(text, chunkSize, overlap)) == SemanticChunks(text, chunkSize, overlap)
  {
    var chunks := SemanticChunks(text, chunkSize, overlap);
    forall i | 0 <= i < |chunks|
      ensures !Blank(chunks[i])
    {
      ChunksNotBlank(text, chunkSize, overlap, i);
    }
    hide Blank;
    NonBlankKeepsAll(chunks);
  }

  method ChunkSemantic(text: string, chunkSize: int, overlap: int) returns (result: seq<string>)
    ensures result == SemanticChunks(text, chunkSize, overlap)
  {
    hide TokenSum, Tokens, Kept, SplitSentences, JoinEach, Join, Blank, NonBlank, Strip, NoBreakInside;
    var limit := chunkSize / CHARS_PER_TOKEN;
    var sentences := SplitSentences(text);
    SentencesCoverText(text);
    StripEmptyIff(text);
    NoGroups();
    if sentences == [] {
      return if Strip(text) != "" then [text] else [];
    }
    var chunks: seq<string> := [];
    var current: seq<string> := [];
    var currentLen := 0;
    EmptySum();
    assert sentences[0..] == sentences;
    ghost var budget := overlap / CHARS_PER_TOKEN;
    for i := 0 to |sentences|
      invariant currentLen == TokenSum(current)
      invariant i > 0 ==> current != []
      invariant SemanticChunks(text, chunkSize, overlap) == chunks + JoinEach(Pack(sentences[i..], limit, budget, current), " ")
    {
      var sentence := sentences[i];
      var tokenLen := Tokens(sentence);
      assert sentences[i..][0] == sentence && sentences[i..][1..] == sentences[i + 1..];
      if current != [] && currentLen + tokenLen > limit {
        ghost var kept := Kept(current, budget);
        ghost var rest := Pack(sentences[i + 1..], limit, budget, kept + [sentence]);
        JoinEachCons(current, rest);
        chunks := chunks + [Join(current, " ")];
        if overlap > 0 {
          current := Overlap(current, overlap);
          currentLen := TokenSum(current);
        } else {
          NothingKept(current, budget);
          current := [];
          currentLen := 0;
        }
      }
      TokenSumSnoc(current, sentence);
      current := current + [sentence];
      currentLen := currentLen + tokenLen;
    }
    assert sentences[|sentences|..] == [];
    JoinEachCons(current, []);
    if current != [] {
      assert [current] + [] == [current] && [Join(current, " ")] + [] == [Join(current, " ")];
      chunks := chunks + [Join(current, " ")];
    }
    assert chunks == SemanticChunks(text, chunkSize, overlap);
    NothingToDrop(text, chunkSize, overlap);
    result := DropBlank(chunks);
  }
}
