/** The sliding window chunker: pieces of a fixed size, each repeating the end of the one before. */
module SlidingWindow {
  import opened Common
  import opened Text
  import opened SentencePacker

  /** An overlap of a whole window or more is cut to one character less than the window. */
  function Clamp(size: int, overlap: int): int {
    if overlap >= size then Max(0, size - 1) else overlap
  }

  /** The windows from a position on. */
  function Windows(text: string, size: nat, overlap: int, start: nat): seq<string>
    requires size >= 1 && overlap < size
    decreases |text| - start
  {
    if start >= |text| then []
    else
      [text[start..Min(start + size, |text|)]]
      + if start + size >= |text| then [] else Windows(text, size, overlap, start + size - overlap)
  }

  function WindowChunks(text: string, size: nat, overlap: int): seq<string>
    requires size >= 1
  {
    NonBlank(Windows(text, size, Clamp(size, overlap), 0))
  }

  /** The first window followed by every later one without its repeated start. */
  function Stitch(windows: seq<string>, overlap: nat): string {
    if windows == [] then ""
    else if |windows| == 1 then windows[0]
    else
      var last := windows[|windows| - 1];
      Stitch(windows[..|windows| - 1], overlap) + if overlap <= |last| then last[overlap..] else ""
  }

  lemma {:induction false} StitchFirst(first: string, rest: seq<string>, overlap: nat, tail: string)
    requires rest != [] && |rest[0]| >= overlap && Stitch(rest, overlap) == rest[0][..overlap] + tail
    ensures Stitch([first] + rest, overlap) == first + tail
  {
    StitchShift(first, rest, overlap);
    assert (rest[0][..overlap] + tail)[overlap..] == tail;
  }

  lemma {:induction false} StitchShift(first: string, rest: seq<string>, overlap: nat)
    requires rest != [] && |rest[0]| >= overlap
    ensures |Stitch(rest, overlap)| >= overlap
    ensures Stitch([first] + rest, overlap) == first + Stitch(rest, overlap)[overlap..]
  {
    var all := [first] + rest;
    if |rest| == 1 {
      assert all[..1] == [first];
    } else {
      var n := |rest| - 1;
      StitchShift(first, rest[..n], overlap);
      assert all[..|all| - 1] == [first] + rest[..n];
    }
  }

  /** A window repeats exactly the end of the one before and adds something. */
  ghost predicate Linked(before: string, after: string, overlap: nat) {
    |before| >= overlap && |after| > overlap && after[..overlap] == before[|before| - overlap..]
  }

  /** Every window fits the size, all but the last fill it, and neighbours share exactly the overlap. */
  ghost predicate Overlapping(windows: seq<string>, size: nat, overlap: nat) {
    && (forall i :: 0 <= i < |windows| ==> 0 < |windows[i]| <= size)
    && (forall i :: 0 <= i < |windows| - 1 ==> |windows[i]| == size && Linked(windows[i], windows[i + 1], overlap))
  }

  lemma OverlappingCons(first: string, rest: seq<string>, size: nat, overlap: nat)
    requires 0 < |first| == size && Overlapping(rest, size, overlap)
    requires rest != [] && Linked(first, rest[0], overlap)
    ensures Overlapping([first] + rest, size, overlap)
  {
    hide Linked;
    var all := [first] + rest;
    forall i | 0 <= i < |all| - 1
      ensures |all[i]| == size && Linked(all[i], all[i + 1], overlap)
    {
      if i > 0 {
        assert all[i] == rest[i - 1] && all[i + 1] == rest[i];
      }
    }
  }

  function WindowAt(text: string, size: nat, start: nat): string
    requires start <= |text|
  {
    text[start..Min(start + size, |text|)]
  }

  /** Two neighbouring windows in the text. */
  lemma Neighbours(text: string, size: nat, overlap: nat, start: nat)
    requires overlap < size && start + size < |text|
    ensures var first, second := WindowAt(text, size, start), WindowAt(text, size, start + size - overlap);
            && |first| == size && Linked(first, second, overlap)
            && text[start..] == first + text[start + size..]
            && text[start + size - overlap..] == second[..overlap] + text[start + size..]
  {
    var next := start + size - overlap;
    assert WindowAt(text, size, next)[..overlap] == text[next..start + size];
    assert WindowAt(text, size, start)[size - overlap..] == text[next..start + size];
    assert text[next..] == text[next..start + size] + text[start + size..];
  }

  lemma {:induction false} WindowsCover(text: string, size: nat, overlap: nat, start: nat)
    requires size >= 1 && overlap < size && start < |text|
    ensures var windows := Windows(text, size, overlap, start);
            && windows != []
            && windows[0] == WindowAt(text, size, start)
            && Stitch(windows, overlap) == text[start..]
            && Overlapping(windows, size, overlap)
    decreases |text| - start
  {
    hide Linked;
    var first := WindowAt(text, size, start);
    if start + size < |text| {
      var next := start + size - overlap;
      hide WindowAt, Overlapping, Stitch;
      WindowsCover(text, size, overlap, next);
      var rest := Windows(text, size, overlap, next);
      Neighbours(text, size, overlap, start);
      LinkedLength(first, rest[0], overlap);
      StitchFirst(first, rest, overlap, text[start + size..]);
      OverlappingCons(first, rest, size, overlap);
      assert Windows(text, size, overlap, start) == [first] + rest by { FirstWindow(text, size, overlap, start); }
    } else {
      FirstWindow(text, size, overlap, start);
    }
  }

  lemma LinkedLength(before: string, after: string, overlap: nat)
    requires Linked(before, after, overlap)
    ensures |after| > overlap
  {
  }

  lemma FirstWindow(text: string, size: nat, overlap: int, start: nat)
    requires size >= 1 && overlap < size && start < |text|
    ensures Windows(text, size, overlap, start)
         == [WindowAt(text, size, start)]
            + if start + size >= |text| then [] else Windows(text, size, overlap, start + size - overlap)
  {
  }

  /** When no window is blank, the chunks stitch back to the text; each fits the size, and neighbours share
      exactly the clamped overlap. */
  lemma WindowsReconstruct(text: string, size: nat, overlap: nat)
    requires size >= 1 && text != ""
    requires forall i :: 0 <= i < |Windows(text, size, Clamp(size, overlap), 0)| ==>
               !Blank(Windows(text, size, Clamp(size, overlap), 0)[i])
    ensures Stitch(WindowChunks(text, size, overlap), Clamp(size, overlap)) == text
    ensures Overlapping(WindowChunks(text, size, overlap), size, Clamp(size, overlap))
  {
    WindowsCover(text, size, Clamp(size, overlap), 0);
    NonBlankKeepsAll(Windows(text, size, Clamp(size, overlap), 0));
    assert text[0..] == text;
  }

  lemma {:induction false} StitchWithoutOverlap(windows: seq<string>)
    ensures Stitch(windows, 0) == Concat(windows)
  {
    if |windows| == 1 {
      assert windows == [windows[0]] && windows[..0] == [];
      assert Concat(windows) == Concat(windows[..0]) + windows[0];
    } else if |windows| > 1 {
      StitchWithoutOverlap(windows[..|windows| - 1]);
    }
  }

  lemma {:induction false} BlankShowsNothing(chunks: seq<string>)
    ensures VisibleAll(NonBlank(chunks)) == VisibleAll(chunks)
  {
    if chunks != [] {
      var n := |chunks| - 1;
      BlankShowsNothing(chunks[..n]);
      VisibleAllAppend(chunks[..n], [chunks[n]]);
      VisibleAllAppend(NonBlank(chunks[..n]), [chunks[n]]);
      VisibleAllOne(chunks[n]);
      BlankHasNothingVisible(chunks[n]);
      assert chunks == chunks[..n] + [chunks[n]];
      assert NonBlank(chunks[..n]) + [] == NonBlank(chunks[..n]);
    }
  }

  /** Without overlap the windows show what the text shows, blank ones dropped or not. */
  lemma WindowsLoseNothing(text: string, size: nat)
    requires size >= 1
    ensures VisibleAll(WindowChunks(text, size, 0)) == Visible(text)
  {
    var windows := Windows(text, size, 0, 0);
    BlankShowsNothing(windows);
    StitchWithoutOverlap(windows);
    if text != "" {
      WindowsCover(text, size, 0, 0);
      assert text[0..] == text;
    }
  }

  // ---- what a negative overlap skips ----------------------------------------

  /** A position that no window reaches, counted from the start of a window. */
  predicate Skipped(size: int, overlap: int, start: int, i: int)
    requires 1 <= size && overlap <= 0
  {
    (i - start) % (size - overlap) >= size
  }

  ghost predicate GapsBlank(text: string, size: int, overlap: int, start: nat)
    requires 1 <= size && overlap <= 0
  {
    forall i :: start <= i < |text| && Skipped(size, overlap, start, i) ==> IsSpace(text[i])
  }

  lemma SmallModulus(a: int, b: int)
    requires 0 <= a < b
    ensures a % b == a
  {
  }

  lemma ShiftModulus(a: int, b: int)
    requires b > 0
    ensures (a - b) % b == a % b
  {
    var k := (a - b) / b - (a / b - 1);
    var r, r' := a % b, (a - b) % b;
    assert k * b == r - r' by {
      assert a == a / b * b + r && a - b == (a - b) / b * b + r';
    }
    SmallMultiple(k, b, r - r');
  }

  /** A multiple of b strictly between -b and b is zero. */
  lemma SmallMultiple(k: int, b: int, d: int)
    requires b > 0 && d == k * b && -b < d < b
    ensures d == 0
  {
    Multiple(k, b);
    Multiple(-k, b);
  }

  lemma Multiple(k: int, b: int)
    requires b > 0
    ensures k >= 1 ==> k * b >= b
    ensures k == 0 ==> k * b == 0
    ensures (-k) * b == -(k * b)
  {
    if k >= 1 {
      assert k * b == (k - 1) * b + b;
    }
  }

  /** The skipped positions from one window on are the gap after it and those from the next window on. */
  lemma GapsSplit(text: string, size: int, overlap: int, start: nat)
    requires 1 <= size && overlap <= 0 && start + size < |text|
    ensures var next := start + size - overlap;
            GapsBlank(text, size, overlap, start)
            <==> Blank(text[start + size..Min(next, |text|)]) && GapsBlank(text, size, overlap, next)
  {
    hide IsSpace;
    var next := start + size - overlap;
    var gap := text[start + size..Min(next, |text|)];
    forall i | start <= i < |text|
      ensures i < next ==> (Skipped(size, overlap, start, i) <==> i >= start + size)
      ensures i >= next ==> (Skipped(size, overlap, start, i) <==> Skipped(size, overlap, next, i))
    {
      if i < next {
        SmallModulus(i - start, size - overlap);
      } else {
        ShiftModulus(i - start, size - overlap);
        assert i - start - (size - overlap) == i - next;
      }
    }
    assert forall i :: start + size <= i < Min(next, |text|) ==> gap[i - start - size] == text[i];
    assert forall k :: 0 <= k < |gap| ==> gap[k] == text[k + start + size];
    if GapsBlank(text, size, overlap, start) {
      forall k | 0 <= k < |gap|
        ensures IsSpace(gap[k])
      {
        assert Skipped(size, overlap, start, k + start + size);
      }
    }
    if Blank(gap) && GapsBlank(text, size, overlap, next) {
      forall i | start <= i < |text| && Skipped(size, overlap, start, i)
        ensures IsSpace(text[i])
      {
        if i < next {
          assert gap[i - start - size] == text[i];
        }
      }
    }
  }

  lemma NoGapAtEnd(text: string, size: int, overlap: int, start: nat)
    requires 1 <= size && overlap <= 0 && start + size >= |text|
    ensures GapsBlank(text, size, overlap, start)
  {
    forall i | start <= i < |text|
      ensures !Skipped(size, overlap, start, i)
    {
      SmallModulus(i - start, size - overlap);
    }
  }

  lemma VisibleInThree(text: string, start: nat, end: nat, next: nat)
    requires start <= end <= next <= |text|
    ensures Visible(text[start..]) == Visible(text[start..end]) + Visible(text[end..next]) + Visible(text[next..])
  {
    assert text[start..] == text[start..end] + text[end..next] + text[next..];
    VisibleConcat(text[start..end] + text[end..next], text[next..]);
    VisibleConcat(text[start..end], text[end..next]);
  }

  lemma {:induction false} WindowsShow(text: string, size: int, overlap: int, start: nat)
    requires 1 <= size && overlap <= 0
    ensures var shown, there := VisibleAll(Windows(text, size, overlap, start)), Visible(text[Min(start, |text|)..]);
            |shown| <= |there| && (shown == there <==> GapsBlank(text, size, overlap, start))
    decreases |text| - start
  {
    hide Visible, VisibleAll, GapsBlank, Blank;
    if start >= |text| {
      NothingThere(text, size, overlap, start);
    } else {
      var next := start + size - overlap;
      var first := WindowAt(text, size, start);
      FirstWindow(text, size, overlap, start);
      VisibleAllOne(first);
      if start + size >= |text| {
        assert first == text[start..];
        assert [first] + [] == [first];
        NoGapAtEnd(text, size, overlap, start);
      } else {
        var to := Min(next, |text|);
        var gap := text[start + size..to];
        VisibleAllAppend([first], Windows(text, size, overlap, next));
        WindowsShow(text, size, overlap, next);
        VisibleInThree(text, start, start + size, to);
        GapsSplit(text, size, overlap, start);
        BlankHasNothingVisible(gap);
        SameEnds(Visible(first), VisibleAll(Windows(text, size, overlap, next)), Visible(gap), Visible(text[to..]));
      }
    }
  }

  lemma SameEnds(first: string, shown: string, gap: string, there: string)
    requires |shown| <= |there|
    ensures |first + shown| <= |first + gap + there|
    ensures first + shown == first + gap + there <==> gap == "" && shown == there
  {
    if first + shown == first + gap + there {
      assert |gap| == 0;
      assert (first + shown)[|first|..] == shown;
      assert (first + there)[|first|..] == there;
      assert first + gap + there == first + there;
    }
  }

  lemma NothingThere(text: string, size: int, overlap: int, start: nat)
    requires 1 <= size && overlap <= 0 && start >= |text|
    ensures VisibleAll(Windows(text, size, overlap, start)) == "" == Visible(text[|text|..])
    ensures GapsBlank(text, size, overlap, start)
  {
    assert text[|text|..] == "";
  }

  /** With an overlap that is not positive the chunks show exactly what the text shows if and only if every
      position that falls between two windows holds whitespace. */
  lemma NothingLostIff(text: string, size: int, overlap: int)
    requires 1 <= size && overlap <= 0
    ensures VisibleAll(WindowChunks(text, size, overlap)) == Visible(text)
       <==> forall i :: 0 <= i < |text| && Skipped(size, overlap, 0, i) ==> IsSpace(text[i])
  {
    BlankShowsNothing(Windows(text, size, overlap, 0));
    WindowsShow(text, size, overlap, 0);
    assert text[0..] == text;
  }

  /** The shortest text that loses something, whatever the negative overlap. */
  lemma NegativeOverlapLoses(overlap: int)
    requires overlap < 0
    ensures VisibleAll(WindowChunks(" x", 1, overlap)) != Visible(" x")
  {
    NothingLostIff(" x", 1, overlap);
    SmallModulus(1, 1 - overlap);
    assert Skipped(1, overlap, 0, 1) && " x"[1] == 'x' && !IsSpace('x');
  }

  // ---- the loop for every size and overlap ----------------------------------

  /** A slice bound as Python reads it: negative bounds count from the end, and all are cut to the text. */
  function Bound(length: nat, i: int): (r: nat)
    ensures r <= length
  {
    if i < 0 then Max(0, length + i) else Min(i, length)
  }

  function Slice(text: string, lo: int, hi: int): string {
    var a, b := Bound(|text|, lo), Bound(|text|, hi);
    if a < b then text[a..b] else ""
  }

  /** The chunks of the windows from a position on, if at most `fuel` rounds of the loop are enough. */
  function Slides(text: string, size: int, overlap: int, start: int, fuel: nat): Option<seq<string>>
    decreases fuel
  {
    if start >= |text| then Some([])
    else if fuel == 0 then None
    else
      var chunk := Slice(text, start, start + size);
      var here := if Blank(chunk) then [] else [chunk];
      if start + size >= |text| then Some(here)
      else
        var rest := Slides(text, size, overlap, start + size - overlap, fuel - 1);
        if rest.None? then None else Some(here + rest.value)
  }

  function SlidingChunks(text: string, size: int, overlap: int, fuel: nat): Option<seq<string>> {
    if Blank(text) then Some([]) else Slides(text, size, Clamp(size, overlap), 0, fuel)
  }

  /** When a window starts after the one before, the text is crossed in time. */
  lemma {:induction false} SlidesEnd(text: string, size: int, overlap: int, start: int, fuel: nat)
    requires overlap < size && fuel >= |text| - start
    ensures Slides(text, size, overlap, start, fuel).Some?
    decreases fuel
  {
    hide Slice, Blank;
    if start < |text| && start + size < |text| {
      SlidesEnd(text, size, overlap, start + size - overlap, fuel - 1);
    }
  }

  lemma {:induction false} SlidesStuck(text: string, size: int, start: int, fuel: nat)
    requires text != "" && size <= 0 && start <= 0
    ensures Slides(text, size, 0, start, fuel).None?
    decreases fuel
  {
    hide Slice, Blank;
    if fuel > 0 {
      SlidesStuck(text, size, start + size, fuel - 1);
    }
  }

  /** The loop ends if and only if the text is blank, the size is positive, or the overlap is below the size. */
  lemma SlidingEndsIff(text: string, size: int, overlap: int)
    ensures (exists fuel: nat :: SlidingChunks(text, size, overlap, fuel).Some?)
       <==> Blank(text) || size >= 1 || overlap < size
  {
    if Blank(text) {
      assert SlidingChunks(text, size, overlap, 0).Some?;
    } else if size >= 1 || overlap < size {
      SlidesEnd(text, size, Clamp(size, overlap), 0, |text|);
      assert SlidingChunks(text, size, overlap, |text|).Some?;
    } else {
      forall fuel: nat
        ensures SlidingChunks(text, size, overlap, fuel).None?
      {
        SlidesStuck(text, size, 0, fuel);
      }
    }
  }

  /** With a positive size the loop's chunks are those of the windows. */
  lemma {:induction false} SlidesAreWindows(text: string, size: nat, overlap: int, start: nat, fuel: nat)
    requires size >= 1 && overlap < size
    ensures var r := Slides(text, size, overlap, start, fuel);
            r.Some? ==> r.value == NonBlank(Windows(text, size, overlap, start))
    decreases fuel
  {
    hide Blank, Windows, NonBlank;
    if start >= |text| {
      PastTheEnd(text, size, overlap, start);
    } else if fuel > 0 {
      assert Slice(text, start, start + size) == WindowAt(text, size, start);
      WindowTaken(text, size, overlap, start);
      if start + size < |text| {
        SlidesAreWindows(text, size, overlap, start + size - overlap, fuel - 1);
      }
    }
  }

  /** So with a positive size as many rounds as the text has characters give the chunks of the windows. */
  lemma SlidingIsWindows(text: string, size: nat, overlap: int, fuel: nat)
    requires size >= 1
    ensures var r := SlidingChunks(text, size, overlap, fuel);
            && (fuel >= |text| ==> r.Some?)
            && (r.Some? && !Blank(text) ==> r.value == WindowChunks(text, size, overlap))
  {
    hide Blank, Slides, Windows, NonBlank;
    if fuel >= |text| {
      SlidesEnd(text, size, Clamp(size, overlap), 0, fuel);
    }
    SlidesAreWindows(text, size, Clamp(size, overlap), 0, fuel);
  }

  /** The loop, with at most `fuel` rounds. */
  method ChunkSlidingWindow(text: string, chunkSize: int, overlap: int, fuel: nat) returns (r: Option<seq<string>>)
    ensures r == SlidingChunks(text, chunkSize, overlap, fuel)
  {
    hide Blank, IsSpace, Slides;
    StripEmptyIff(text);
    if Strip(text) == "" {
      return Some([]);
    }
    var o := overlap;
    if overlap >= chunkSize {
      o := Max(0, chunkSize - 1);
    }
    r := Slide(text, chunkSize, o, fuel);
  }

  function After(chunks: seq<string>, rest: Option<seq<string>>): Option<seq<string>> {
    if rest.None? then None else Some(chunks + rest.value)
  }

  lemma SlideRound(text: string, size: int, overlap: int, start: int, fuel: nat, chunks: seq<string>)
    requires start < |text| && fuel > 0
    ensures var chunk := Slice(text, start, start + size);
            var taken := if Blank(chunk) then chunks else chunks + [chunk];
            After(chunks, Slides(text, size, overlap, start, fuel))
            == if start + size >= |text| then Some(taken)
               else After(taken, Slides(text, size, overlap, start + size - overlap, fuel - 1))
  {
    hide Blank, Slice;
    var chunk := Slice(text, start, start + size);
    var rest := Slides(text, size, overlap, start + size - overlap, fuel - 1);
    assert chunks + [] == chunks;
    if rest.Some? {
      assert chunks + ([chunk] + rest.value) == chunks + [chunk] + rest.value;
      assert [] + rest.value == rest.value;
    }
  }

  lemma SlideStops(text: string, size: int, overlap: int, start: int, fuel: nat, chunks: seq<string>)
    ensures start >= |text| ==> After(chunks, Slides(text, size, overlap, start, fuel)) == Some(chunks)
    ensures start < |text| && fuel == 0 ==> After(chunks, Slides(text, size, overlap, start, fuel)) == None
    ensures After([], Slides(text, size, overlap, start, fuel)) == Slides(text, size, overlap, start, fuel)
  {
    assert chunks + [] == chunks;
    var r := Slides(text, size, overlap, start, fuel);
    assert r.Some? ==> [] + r.value == r.value;
  }

  /** Move the window over the text until it reaches the end or the rounds are used up. */
  method Slide(text: string, size: int, overlap: int, fuel: nat) returns (r: Option<seq<string>>)
    ensures r == Slides(text, size, overlap, 0, fuel)
  {
    hide Blank, IsSpace, Slides, Strip, Slice, After;
    var chunks: seq<string> := [];
    var start := 0;
    var rounds := fuel;
    SlideStops(text, size, overlap, 0, fuel, []);
    while start < |text|
      invariant After(chunks, Slides(text, size, overlap, start, rounds)) == Slides(text, size, overlap, 0, fuel)
      decreases rounds
    {
      if rounds == 0 {
        SlideStops(text, size, overlap, start, rounds, chunks);
        return None;
      }
      var end := start + size;
      var chunk := Slice(text, start, end);
      SlideRound(text, size, overlap, start, rounds, chunks);
      StripEmptyIff(chunk);
      if Strip(chunk) != "" {
        chunks := chunks + [chunk];
      }
      if end >= |text| {
        return Some(chunks);
      }
      start := end - overlap;
      rounds := rounds - 1;
    }
    SlideStops(text, size, overlap, start, rounds, chunks);
    return Some(chunks);
  }

  lemma {:induction false} NonBlankCons(first: string, rest: seq<string>)
    ensures NonBlank([first] + rest) == (if Blank(first) then [] else [first]) + NonBlank(rest)
  {
    hide Blank;
    var all := [first] + rest;
    if rest == [] {
      assert all[..0] == [];
      assert NonBlank(all) == NonBlank(all[..0]) + if Blank(first) then [] else [first];
    } else {
      NonBlankCons(first, rest[..|rest| - 1]);
      assert all[..|all| - 1] == [first] + rest[..|rest| - 1];
    }
  }

  /** The chunk of the first window, if it is not blank, and those of the others. */
  lemma WindowTaken(text: string, size: nat, overlap: int, start: nat)
    requires size >= 1 && overlap < size && start < |text|
    ensures var chunk := WindowAt(text, size, start);
            NonBlank(Windows(text, size, overlap, start))
            == (if Blank(chunk) then [] else [chunk])
               + if start + size >= |text| then [] else NonBlank(Windows(text, size, overlap, start + size - overlap))
  {
    hide Blank, WindowAt, Windows;
    FirstWindow(text, size, overlap, start);
    NonBlankCons(WindowAt(text, size, start),
                 if start + size >= |text| then [] else Windows(text, size, overlap, start + size - overlap));
  }

  lemma PastTheEnd(text: string, size: nat, overlap: int, start: nat)
    requires size >= 1 && overlap < size && start >= |text|
    ensures NonBlank(Windows(text, size, overlap, start)) == []
  {
  }
}
