/** Strings as the chunkers see them: whitespace, visible characters, lines and sentences. */
module Text {
  import opened Common

  /** Unicode whitespace, the same set for stripping and for matching whitespace. */
  predicate IsSpace(c: char) {
    var n := c as int;
    9 <= n <= 13 || 28 <= n <= 32 || n == 0x85 || n == 0xA0 || n == 0x1680 || 0x2000 <= n <= 0x200A
    || n == 0x2028 || n == 0x2029 || n == 0x202F || n == 0x205F || n == 0x3000
  }

  predicate Blank(s: string) {
    forall i :: 0 <= i < |s| ==> IsSpace(s[i])
  }

  /** The characters of s that are not whitespace, in order. */
  function Visible(s: string): string {
    if s == "" then ""
    else Visible(s[..|s| - 1]) + if IsSpace(s[|s| - 1]) then "" else [s[|s| - 1]]
  }

  function Join(parts: seq<string>, sep: string): string {
    if parts == [] then ""
    else if |parts| == 1 then parts[0]
    else Join(parts[..|parts| - 1], sep) + sep + parts[|parts| - 1]
  }

  function LStrip(s: string): string {
    if s != "" && IsSpace(s[0]) then LStrip(s[1..]) else s
  }

  function RStrip(s: string): string {
    if s != "" && IsSpace(s[|s| - 1]) then RStrip(s[..|s| - 1]) else s
  }

  function Strip(s: string): string {
    RStrip(LStrip(s))
  }

  // ---- visible characters ---------------------------------------------------

  lemma {:induction false} VisibleConcat(a: string, b: string)
    ensures Visible(a + b) == Visible(a) + Visible(b)
  {
    if b == "" {
      assert a + b == a;
    } else {
      var n := |b| - 1;
      VisibleConcat(a, b[..n]);
      assert (a + b)[..|a + b| - 1] == a + b[..n];
    }
  }

  lemma {:induction false} BlankHasNothingVisible(s: string)
    ensures Visible(s) == "" <==> Blank(s)
  {
    if s != "" {
      var n := |s| - 1;
      BlankHasNothingVisible(s[..n]);
      assert s == s[..n] + [s[n]];
      assert Blank(s) ==> Blank(s[..n]);
    }
  }

  lemma {:induction false} StripVisible(s: string)
    ensures Visible(Strip(s)) == Visible(s)
  {
    LStripVisible(s);
    RStripVisible(LStrip(s));
  }

  lemma {:induction false} LStripVisible(s: string)
    ensures Visible(LStrip(s)) == Visible(s)
    ensures LStrip(s) == "" || !IsSpace(LStrip(s)[0])
    ensures |LStrip(s)| <= |s|
  {
    if s != "" && IsSpace(s[0]) {
      LStripVisible(s[1..]);
      VisibleConcat(s[..1], s[1..]);
      assert s == s[..1] + s[1..];
      assert s[..1][..0] == "" && Visible(s[..1]) == "";
    }
  }

  lemma {:induction false} RStripVisible(s: string)
    ensures Visible(RStrip(s)) == Visible(s)
    ensures RStrip(s) <= s
  {
    if s != "" && IsSpace(s[|s| - 1]) {
      RStripVisible(s[..|s| - 1]);
    }
  }

  /** Stripping leaves nothing exactly when there is nothing to see. */
  lemma StripEmptyIff(s: string)
    ensures Strip(s) == "" <==> Blank(s)
    ensures Strip(s) != "" ==> !IsSpace(Strip(s)[0])
  {
    StripVisible(s);
    BlankHasNothingVisible(s);
    BlankHasNothingVisible(Strip(s));
    LStripVisible(s);
    RStripVisible(LStrip(s));
    assert Visible("") == "";
  }

  /** The visible characters of a list of pieces. */
  function VisibleAll(parts: seq<string>): string {
    Visible(Concat(parts))
  }

  lemma VisibleAllAppend(a: seq<string>, b: seq<string>)
    ensures VisibleAll(a + b) == VisibleAll(a) + VisibleAll(b)
  {
    ConcatAppend(a, b);
    VisibleConcat(Concat(a), Concat(b));
  }

  lemma VisibleAllOne(s: string)
    ensures VisibleAll([s]) == Visible(s)
  {
    assert [s][..0] == [];
    assert Concat([s]) == Concat([]) + s == s;
  }

  /** A whitespace separator adds nothing visible. */
  lemma {:induction false} VisibleJoin(parts: seq<string>, sep: string)
    requires Blank(sep)
    ensures Visible(Join(parts, sep)) == VisibleAll(parts)
  {
    if |parts| == 1 {
      VisibleAllOne(parts[0]);
      assert parts == [parts[0]];
    } else if |parts| > 1 {
      var n := |parts| - 1;
      VisibleJoin(parts[..n], sep);
      BlankHasNothingVisible(sep);
      VisibleConcat(Join(parts[..n], sep), sep);
      VisibleConcat(Join(parts[..n], sep) + sep, parts[n]);
      VisibleConcat(Concat(parts[..n]), parts[n]);
    }
  }

  // ---- joining --------------------------------------------------------------

  lemma {:induction false} JoinAppend(a: seq<string>, b: seq<string>, sep: string)
    requires a != [] && b != []
    ensures Join(a + b, sep) == Join(a, sep) + sep + Join(b, sep)
  {
    var n := |b| - 1;
    assert (a + b)[..|a + b| - 1] == a + b[..n];
    if n == 0 {
      assert a + b[..n] == a;
    } else {
      JoinAppend(a, b[..n], sep);
    }
  }

  function JoinEach(groups: seq<seq<string>>, sep: string): seq<string> {
    seq(|groups|, i requires 0 <= i < |groups| => Join(groups[i], sep))
  }

  /** Joining nonempty groups and joining the results is joining everything. */
  lemma {:induction false} JoinGroups(groups: seq<seq<string>>, sep: string)
    requires forall i :: 0 <= i < |groups| ==> groups[i] != []
    ensures Join(JoinEach(groups, sep), sep) == Join(Concat(groups), sep)
    ensures groups != [] ==> Concat(groups) != []
  {
    if |groups| == 1 {
      assert Concat(groups) == Concat(groups[..0]) + groups[0] == groups[0];
    } else if |groups| > 1 {
      var n := |groups| - 1;
      JoinGroups(groups[..n], sep);
      assert JoinEach(groups, sep)[..n] == JoinEach(groups[..n], sep);
      JoinAppend(Concat(groups[..n]), groups[n], sep);
    }
  }

  // ---- lines ----------------------------------------------------------------

  /** text.split("\n"): always at least one line. */
  function SplitLines(text: string): (lines: seq<string>)
    ensures |lines| >= 1
  {
    if text == "" then [""]
    else
      var n := |text| - 1;
      var lines := SplitLines(text[..n]);
      if text[n] == '\n' then lines + [""]
      else lines[..|lines| - 1] + [lines[|lines| - 1] + [text[n]]]
  }

  /** Joining the lines gives the text back, and no line holds a line break. */
  lemma {:induction false} SplitLinesJoins(text: string)
    ensures Join(SplitLines(text), "\n") == text
    ensures forall i :: 0 <= i < |SplitLines(text)| ==> '\n' !in SplitLines(text)[i]
  {
    if text != "" {
      var n := |text| - 1;
      SplitLinesJoins(text[..n]);
      var lines := SplitLines(text[..n]);
      var m := |lines| - 1;
      assert text == text[..n] + [text[n]];
      if text[n] == '\n' {
        assert SplitLines(text)[..|lines|] == lines;
      } else {
        assert SplitLines(text)[..m] == lines[..m];
        assert lines == lines[..m] + [lines[m]];
        if m > 0 {
          assert Join(SplitLines(text), "\n") == Join(lines[..m], "\n") + "\n" + (lines[m] + [text[n]]);
        }
      }
    }
  }

  // ---- sentences ------------------------------------------------------------

  predicate EndsSentence(c: char) {
    c == '.' || c == '!' || c == '?'
  }

  predicate Terminated(s: string) {
    s != "" && EndsSentence(s[|s| - 1])
  }

  /** A place where a sentence may be cut: whitespace right after a terminator. */
  predicate BreakAt(s: string, k: nat) {
    1 <= k < |s| && IsSpace(s[k]) && EndsSentence(s[k - 1])
  }

  function FirstBreak(s: string, k: nat): (r: nat)
    requires k <= |s|
    ensures k <= r <= |s|
    ensures r < |s| ==> BreakAt(s, r)
    ensures forall j :: k <= j < r ==> !BreakAt(s, j)
    decreases |s| - k
  {
    if k == |s| || BreakAt(s, k) then k else FirstBreak(s, k + 1)
  }

  function SkipSpaces(s: string, k: nat): (r: nat)
    requires k <= |s|
    ensures k <= r <= |s|
    ensures Blank(s[k..r])
    ensures r < |s| ==> !IsSpace(s[r])
    ensures k < |s| && IsSpace(s[k]) ==> r > k
    decreases |s| - k
  {
    if k < |s| && IsSpace(s[k]) then
      var r := SkipSpaces(s, k + 1);
      assert s[k..r] == [s[k]] + s[k + 1..r];
      r
    else k
  }

  /** Split at every run of whitespace that follows a terminator. */
  function SplitAtBreaks(s: string): (parts: seq<string>)
    ensures |parts| >= 1
    decreases |s|
  {
    var k := FirstBreak(s, 0);
    if k == |s| then [s] else [s[..k]] + SplitAtBreaks(s[SkipSpaces(s, k)..])
  }

  /** The sentences of a text: split the stripped text, drop empty pieces. */
  function SplitSentences(text: string): seq<string> {
    NonEmpty(SplitAtBreaks(Strip(text)))
  }

  function NonEmpty(parts: seq<string>): seq<string> {
    if parts == [] then []
    else (if parts[0] != "" then [parts[0]] else []) + NonEmpty(parts[1..])
  }

  ghost predicate NoBreakInside(s: string) {
    forall k: nat :: !BreakAt(s, k)
  }

  /** A piece starts visibly and holds no break. */
  ghost predicate Piece(s: string) {
    s != "" && !IsSpace(s[0]) && NoBreakInside(s)
  }

  /** A string with visible ends. */
  predicate Trimmed(s: string) {
    s != "" && !IsSpace(s[0]) && !IsSpace(s[|s| - 1])
  }

  lemma GapEndsInside(s: string, k: nat, j: nat)
    requires k < j <= |s| && Blank(s[k..j]) && !IsSpace(s[|s| - 1])
    ensures j < |s|
  {
    hide IsSpace;
    assert IsSpace(s[k..j][j - 1 - k]);
    assert s[k..j][j - 1 - k] == s[j - 1];
  }

  lemma SuffixTrimmed(s: string, j: nat)
    requires j < |s| && !IsSpace(s[j]) && !IsSpace(s[|s| - 1])
    ensures Trimmed(s[j..])
  {
    hide IsSpace;
  }

  lemma GapShows(s: string, k: nat, j: nat)
    requires k <= j <= |s| && Blank(s[k..j])
    ensures Visible(s) == Visible(s[..k]) + Visible(s[j..])
  {
    hide IsSpace, Visible, Blank;
    var a, gap, b := s[..k], s[k..j], s[j..];
    assert s == a + gap + b;
    GapShowsNothing(a, gap, b);
  }

  /** After the first break of a trimmed string comes whitespace only, then a shorter trimmed string. */
  lemma BreakSplits(s: string, k: nat, j: nat)
    requires Trimmed(s) && k == FirstBreak(s, 0) < |s| && j == SkipSpaces(s, k)
    ensures k < j < |s| && Trimmed(s[j..])
    ensures Visible(s) == Visible(s[..k]) + Visible(s[j..])
  {
    hide FirstBreak, SkipSpaces, IsSpace, Visible, Blank, EndsSentence;
    assert BreakAt(s, k);
    GapEndsInside(s, k, j);
    SuffixTrimmed(s, j);
    GapShows(s, k, j);
  }

  lemma GapShowsNothing(a: string, gap: string, b: string)
    requires Blank(gap)
    ensures Visible(a + gap + b) == Visible(a) + Visible(b)
  {
    VisibleConcat(a + gap, b);
    VisibleConcat(a, gap);
    BlankHasNothingVisible(gap);
  }

  lemma PrefixIsPiece(s: string)
    requires Trimmed(s)
    ensures Piece(s[..FirstBreak(s, 0)])
    ensures FirstBreak(s, 0) < |s| ==> Terminated(s[..FirstBreak(s, 0)])
  {
    var k := FirstBreak(s, 0);
    assert k > 0;
    forall i: nat
      ensures !BreakAt(s[..k], i)
    {
      assert i < k ==> !BreakAt(s, i);
    }
  }

  lemma {:induction false} PiecesShowAll(s: string)
    requires Trimmed(s)
    ensures VisibleAll(SplitAtBreaks(s)) == Visible(s)
    decreases |s|
  {
    var k := FirstBreak(s, 0);
    if k == |s| {
      VisibleAllOne(s);
    } else {
      BreakSplits(s, k, SkipSpaces(s, k));
      var rest := s[SkipSpaces(s, k)..];
      PiecesShowAll(rest);
      VisibleAllAppend([s[..k]], SplitAtBreaks(rest));
      VisibleAllOne(s[..k]);
    }
  }

  /** The pieces of a trimmed string start visibly and hold no break; all but the last end with a terminator. */
  lemma {:induction false} PiecesAreSentences(s: string)
    requires Trimmed(s)
    ensures forall p :: p in SplitAtBreaks(s) ==> Piece(p)
    ensures forall i :: 0 <= i < |SplitAtBreaks(s)| - 1 ==> Terminated(SplitAtBreaks(s)[i])
    decreases |s|
  {
    hide Piece, Terminated;
    var k := FirstBreak(s, 0);
    PrefixIsPiece(s);
    if k == |s| {
      assert s[..k] == s;
    } else {
      BreakSplits(s, k, SkipSpaces(s, k));
      PiecesAreSentences(s[SkipSpaces(s, k)..]);
    }
  }

  lemma {:induction false} NonEmptyKeepsAll(parts: seq<string>)
    requires forall i :: 0 <= i < |parts| ==> parts[i] != ""
    ensures NonEmpty(parts) == parts
  {
    if parts != [] {
      NonEmptyKeepsAll(parts[1..]);
    }
  }

  lemma {:induction false} RStripEnd(s: string)
    ensures RStrip(s) == "" || !IsSpace(RStrip(s)[|RStrip(s)| - 1])
  {
    if s != "" && IsSpace(s[|s| - 1]) {
      RStripEnd(s[..|s| - 1]);
    }
  }

  /** Sentence splitting loses nothing visible, cuts at every break, and never yields a blank sentence;
      a blank text has no sentences. */
  lemma SentencesCoverText(text: string)
    ensures VisibleAll(SplitSentences(text)) == Visible(text)
    ensures SplitSentences(text) == [] <==> Blank(text)
    ensures forall p :: p in SplitSentences(text) ==> !Blank(p) && NoBreakInside(p)
    ensures var sentences := SplitSentences(text);
            forall i :: 0 <= i < |sentences| - 1 ==> Terminated(sentences[i])
  {
    hide FirstBreak, SplitAtBreaks, Terminated, NoBreakInside;
    var s := Strip(text);
    StripEmptyIff(text);
    StripVisible(text);
    BlankHasNothingVisible(text);
    if s == "" {
      EmptyHasNoSentences();
    } else {
      RStripEnd(LStrip(text));
      PiecesShowAll(s);
      PiecesAreSentences(s);
      assert forall i :: 0 <= i < |SplitAtBreaks(s)| ==> Piece(SplitAtBreaks(s)[i]);
      NonEmptyKeepsAll(SplitAtBreaks(s));
    }
  }

  lemma EmptyHasNoSentences()
    ensures NonEmpty(SplitAtBreaks("")) == [] && VisibleAll([]) == ""
  {
    assert SplitAtBreaks("") == [""];
    assert NonEmpty([""]) == NonEmpty([""][1..]) == [];
  }
}
