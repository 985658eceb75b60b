/** Context assembly: fitting a message list into a model's working budget in three passes.  The passes take any
    token estimator; what they do with the service's own estimator, including when they end, comes last. */
module ContextManager {
  import opened Common

  datatype RawMessage = RawMessage(role: Option<string>, content: Option<string>)
  datatype Message = Message(role: string, content: string)

  datatype Budget = Budget(modelContext: int, reservedOutput: int, safetyMargin: int, workingInput: int)
  datatype Breakdown = Breakdown(system: int, history: int, knowledge: int, tools: int, currentRequest: int)
  datatype Warning = Compressed | SystemTooLarge | StillExceeds

  datatype Assembly = Assembly(messages: seq<Message>, estimated: int, breakdown: Breakdown,
                               dropped: nat, compressed: nat, warnings: seq<Warning>)

  type Estimator = seq<Message> -> int

  const TRUNCATED_TO_FIT := "\n[Context truncated to fit the selected model.]"
  const TRUNCATED := "\n[Context truncated.]"

  // ---- the budget -----------------------------------------------------------

  function PositiveOr(x: Option<int>, otherwise: int): int {
    if x.Some? && x.value != 0 then x.value else otherwise
  }

  function Share(context: int, ratio: real): real {
    context as real * ratio
  }

  /** A share of the context in whole tokens, but no less than 256. */
  function MarginFor(share: real): (m: int)
    ensures m >= 256
    ensures share >= 0.0 ==> m as real > share - 1.0 && (m == 256 || m as real <= share)
    ensures share < 256.0 ==> m == 256
  {
    Max(256, if share >= 0.0 then share.Floor else -((-share).Floor))
  }

  /** `context` and `output` are what the model's metadata says. */
  function BudgetFor(context: int, output: Option<int>, requested: Option<int>, override: Option<int>,
                     defaultOutput: int, safetyRatio: real): (b: Budget)
    ensures b.modelContext >= 1 && b.reservedOutput >= 256 && b.safetyMargin >= 256 && b.workingInput >= 1
    ensures b.reservedOutput + b.safetyMargin + b.workingInput <= b.modelContext
       <==> b.reservedOutput + b.safetyMargin < b.modelContext
    ensures b.workingInput > 1 ==> b.reservedOutput + b.safetyMargin + b.workingInput == b.modelContext
    ensures override.Some? && override.value > 0 ==> b.modelContext == override.value
    ensures override.None? || override.value == 0 ==> b.modelContext == Max(1, context)
    ensures requested.Some? && requested.value != 0 ==> b.reservedOutput <= Max(256, requested.value)
    ensures output.Some? && output.value != 0 ==> b.reservedOutput <= Max(256, output.value)
    ensures requested.Some? && requested.value >= 256 && output.Some? && output.value >= requested.value ==>
              b.reservedOutput == requested.value
    ensures b.safetyMargin == MarginFor(Share(b.modelContext, safetyRatio))
  {
    var modelContext := Max(1, PositiveOr(override, context));
    var reserved := Max(256, Min(PositiveOr(requested, defaultOutput), PositiveOr(output, defaultOutput)));
    var margin := MarginFor(Share(modelContext, safetyRatio));
    Budget(modelContext, reserved, margin, Max(1, modelContext - reserved - margin))
  }

  // ---- normalisation --------------------------------------------------------

  function Normalize(m: RawMessage): Message
    requires m.content.Some?
  {
    Message(if m.role.Some? && m.role.value != "" then m.role.value else "user", m.content.value)
  }

  /** Messages without content are skipped. */
  function Normalized(raw: seq<RawMessage>): seq<Message> {
    if raw == [] then []
    else (if raw[0].content.Some? then [Normalize(raw[0])] else []) + Normalized(raw[1..])
  }

  // ---- pass one: dropping ---------------------------------------------------

  predicate IsSystem(m: Message) {
    m.role == "system"
  }

  /** The first message that is neither a system message nor the last. */
  function OldestRemovable(messages: seq<Message>): (r: Option<nat>)
    ensures r.Some? ==> r.value < |messages| - 1 && !IsSystem(messages[r.value])
                        && forall i :: 0 <= i < r.value ==> IsSystem(messages[i])
    ensures r.None? ==> forall i :: 0 <= i < |messages| - 1 ==> IsSystem(messages[i])
  {
    if |messages| <= 1 then None
    else if !IsSystem(messages[0]) then Some(0)
    else
      var later := OldestRemovable(messages[1..]);
      if later.None? then
        assert forall i :: 1 <= i < |messages| ==> messages[i] == messages[1..][i - 1];
        None
      else Some(later.value + 1)
  }

  /** The messages without the first `k` that are neither system messages nor the last. */
  function WithoutOldest(messages: seq<Message>, k: nat): seq<Message> {
    if k == 0 || |messages| <= 1 then messages
    else if IsSystem(messages[0]) then [messages[0]] + WithoutOldest(messages[1..], k)
    else WithoutOldest(messages[1..], k - 1)
  }

  function Removable(messages: seq<Message>): nat {
    if |messages| <= 1 then 0 else (if IsSystem(messages[0]) then 0 else 1) + Removable(messages[1..])
  }

  /** How many messages pass one drops: it stops as soon as the rest fits or nothing more can go. */
  function DropCount(est: Estimator, working: int, messages: seq<Message>, k: nat): (n: nat)
    requires k <= Removable(messages)
    ensures k <= n <= Removable(messages)
    ensures forall i :: k <= i < n ==> est(WithoutOldest(messages, i)) > working
    ensures n == Removable(messages) || est(WithoutOldest(messages, n)) <= working
    decreases Removable(messages) - k
  {
    if est(WithoutOldest(messages, k)) <= working || k == Removable(messages) then k
    else DropCount(est, working, messages, k + 1)
  }

  function Trimmed(est: Estimator, working: int, messages: seq<Message>): seq<Message> {
    WithoutOldest(messages, DropCount(est, working, messages, 0))
  }

  function Systems(messages: seq<Message>): seq<Message> {
    if messages == [] then [] else (if IsSystem(messages[0]) then [messages[0]] else []) + Systems(messages[1..])
  }

  function Others(messages: seq<Message>): seq<Message> {
    if messages == [] then [] else (if IsSystem(messages[0]) then [] else [messages[0]]) + Others(messages[1..])
  }

  /** Every system message in order, the last message, and the newest of the others. */
  ghost predicate KeptAfter(messages: seq<Message>, k: nat, kept: seq<Message>) {
    && Systems(kept) == Systems(messages)
    && k <= |Others(messages)| && Others(kept) == Others(messages)[k..]
    && |kept| == |messages| - k
    && (messages != [] ==> kept != [] && kept[|kept| - 1] == messages[|messages| - 1])
    && Removable(kept) == Removable(messages) - k
  }

  lemma SystemKept(first: Message, rest: seq<Message>, k: nat, kept: seq<Message>)
    requires IsSystem(first) && rest != [] && KeptAfter(rest, k, kept)
    ensures KeptAfter([first] + rest, k, [first] + kept)
  {
    FirstCounts(first, rest);
    FirstCounts(first, kept);
    hide Systems, Others, Removable, IsSystem;
  }

  lemma OtherDropped(first: Message, rest: seq<Message>, k: nat, kept: seq<Message>)
    requires !IsSystem(first) && rest != [] && KeptAfter(rest, k, kept)
    ensures KeptAfter([first] + rest, k + 1, kept)
  {
    FirstCounts(first, rest);
    hide Systems, Others, Removable, IsSystem;
    assert ([first] + Others(rest))[k + 1..] == Others(rest)[k..];
  }

  lemma NothingDropped(messages: seq<Message>)
    ensures KeptAfter(messages, 0, messages)
  {
    hide Systems, Others, Removable;
  }

  lemma {:induction false} DroppingKeeps(messages: seq<Message>, k: nat)
    requires k <= Removable(messages)
    ensures KeptAfter(messages, k, WithoutOldest(messages, k))
  {
    hide KeptAfter, IsSystem;
    if k == 0 {
      NothingDropped(messages);
    } else {
      var first, rest := messages[0], messages[1..];
      assert messages == [first] + rest;
      if IsSystem(first) {
        DroppingKeeps(rest, k);
        SystemKept(first, rest, k, WithoutOldest(rest, k));
      } else {
        DroppingKeeps(rest, k - 1);
        OtherDropped(first, rest, k - 1, WithoutOldest(rest, k - 1));
      }
    }
  }

  /** Dropping keeps every system message in order, the last message, and the newest of the others. */
  lemma DropsOldest(messages: seq<Message>, k: nat)
    requires k <= Removable(messages)
    ensures var kept := WithoutOldest(messages, k);
            && Systems(kept) == Systems(messages)
            && k <= |Others(messages)| && Others(kept) == Others(messages)[k..]
            && |kept| == |messages| - k
            && (messages != [] ==> kept != [] && kept[|kept| - 1] == messages[|messages| - 1])
            && Removable(kept) == Removable(messages) - k
  {
    hide WithoutOldest, Systems, Others, Removable;
    DroppingKeeps(messages, k);
  }

  lemma FirstCounts(first: Message, rest: seq<Message>)
    ensures Systems([first] + rest) == if IsSystem(first) then [first] + Systems(rest) else Systems(rest)
    ensures Others([first] + rest) == if IsSystem(first) then Others(rest) else [first] + Others(rest)
    ensures rest != [] ==> Removable([first] + rest) == Removable(rest) + if IsSystem(first) then 0 else 1
  {
    assert ([first] + rest)[1..] == rest;
    assert [] + Systems(rest) == Systems(rest) && [] + Others(rest) == Others(rest);
  }

  /** Popping the oldest removable message is one more drop. */
  lemma {:induction false} PopIsDrop(messages: seq<Message>, k: nat)
    ensures var oldest := OldestRemovable(messages);
            if oldest.None? then Removable(messages) == 0
            else var rest := messages[..oldest.value] + messages[oldest.value + 1..];
                 Removable(messages) == Removable(rest) + 1 && WithoutOldest(messages, k + 1) == WithoutOldest(rest, k)
  {
    var oldest := OldestRemovable(messages);
    if |messages| > 1 {
      if IsSystem(messages[0]) {
        PopIsDrop(messages[1..], k);
        hide OldestRemovable, WithoutOldest, Removable;
        SystemFirst(messages);
        if oldest.Some? {
          SystemStays(messages, oldest.value, k);
        }
      } else {
        assert messages[..0] + messages[1..] == messages[1..];
      }
    }
  }

  lemma SystemFirst(messages: seq<Message>)
    requires |messages| > 1 && IsSystem(messages[0])
    ensures Removable(messages) == Removable(messages[1..])
    ensures var later := OldestRemovable(messages[1..]);
            OldestRemovable(messages) == if later.None? then None else Some(later.value + 1)
  {
  }

  lemma SystemStays(messages: seq<Message>, i: nat, k: nat)
    requires 0 < i < |messages| - 1 && IsSystem(messages[0])
    ensures var rest, popped := messages[1..], messages[..i] + messages[i + 1..];
            var popped' := rest[..i - 1] + rest[i..];
            && WithoutOldest(messages, k + 1) == [messages[0]] + WithoutOldest(rest, k + 1)
            && WithoutOldest(popped, k) == [messages[0]] + WithoutOldest(popped', k)
            && Removable(popped) == Removable(popped')
  {
    hide IsSystem;
    var rest, popped := messages[1..], messages[..i] + messages[i + 1..];
    var popped' := rest[..i - 1] + rest[i..];
    assert popped == [messages[0]] + popped';
    assert popped[1..] == popped';
  }

  lemma {:induction false} DropsCompose(messages: seq<Message>, k: nat)
    requires k < Removable(messages)
    ensures var kept := WithoutOldest(messages, k);
            OldestRemovable(kept).Some?
            && var i := OldestRemovable(kept).value;
               WithoutOldest(messages, k + 1) == kept[..i] + kept[i + 1..]
  {
    hide OldestRemovable, Removable, WithoutOldest;
    PopIsDrop(messages, k);
    DropNone(messages);
    if k > 0 {
      var i := OldestRemovable(messages).value;
      PopIsDrop(messages, k - 1);
      DropsCompose(messages[..i] + messages[i + 1..], k - 1);
    } else {
      var i := OldestRemovable(messages).value;
      DropNone(messages[..i] + messages[i + 1..]);
    }
  }

  lemma DropNone(messages: seq<Message>)
    ensures WithoutOldest(messages, 0) == messages
  {
  }

  // ---- pass two: cutting one payload ----------------------------------------

  datatype State = State(messages: seq<Message>, compressed: nat, warnings: seq<Warning>)

  /** What pass two cuts: the first message that is neither a system message nor the last, else the last unless
      it is a system message. */
  function CutTarget(messages: seq<Message>): (r: Option<nat>)
    requires messages != []
    ensures r.Some? ==> r.value < |messages| && !IsSystem(messages[r.value])
  {
    var oldest := OldestRemovable(messages);
    if oldest.Some? then oldest
    else if IsSystem(messages[|messages| - 1]) then None
    else Some(|messages| - 1)
  }

  function Rewrite(messages: seq<Message>, i: nat, content: string): seq<Message>
    requires i < |messages|
  {
    messages[i := messages[i].(content := content)]
  }

  function Cut(content: string, excess: int): string {
    var keep := Max(128, |content| - excess * 4);
    content[..Min(keep, |content|)] + TRUNCATED_TO_FIT
  }

  function PassTwo(est: Estimator, working: int, messages: seq<Message>): State
    requires est([]) <= working
  {
    var excess := est(messages) - working;
    if excess <= 0 then State(messages, 0, [])
    else
      var target := CutTarget(messages);
      if target.None? then State(messages, 0, [SystemTooLarge])
      else State(Rewrite(messages, target.value, Cut(messages[target.value].content, excess)), 1, [Compressed])
  }

  // ---- pass three: shrinking until it fits ----------------------------------

  predicate Candidate(m: Message) {
    m.content != "" && !IsSystem(m)
  }

  /** The first of the longest contents that may be shrunk. */
  function LongestCandidate(messages: seq<Message>): (r: Option<nat>)
    ensures r.Some? ==> r.value < |messages| && Candidate(messages[r.value])
    ensures r.Some? ==> forall i :: 0 <= i < |messages| && Candidate(messages[i]) ==>
                          |messages[i].content| <= |messages[r.value].content|
                          && (i < r.value ==> |messages[i].content| < |messages[r.value].content|)
    ensures r.None? ==> forall i :: 0 <= i < |messages| ==> !Candidate(messages[i])
  {
    if messages == [] then None
    else
      var n := |messages| - 1;
      var best := LongestCandidate(messages[..n]);
      if Candidate(messages[n]) && (best.None? || |messages[n].content| > |messages[best.value].content|) then Some(n)
      else best
  }

  function Shrink(content: string, excess: int): string
    requires content != ""
  {
    var remove := Min(Max(excess * 4, 16), Max(1, |content| - 1));
    if |content| <= remove + |TRUNCATED| then "" else content[..|content| - remove] + TRUNCATED
  }

  function ShrinkAt(est: Estimator, working: int, s: State, i: nat): State
    requires i < |s.messages| && Candidate(s.messages[i])
  {
    State(Rewrite(s.messages, i, Shrink(s.messages[i].content, est(s.messages) - working)),
          s.compressed + 1,
          if Compressed in s.warnings then s.warnings else s.warnings + [Compressed])
  }

  /** At most `fuel` rounds of the last loop; none if it wants more. */
  function PassThree(est: Estimator, working: int, s: State, fuel: nat): Option<State>
    decreases fuel
  {
    if est(s.messages) <= working then Some(s)
    else
      var target := LongestCandidate(s.messages);
      if target.None? then Some(s.(warnings := s.warnings + [SystemTooLarge]))
      else if fuel == 0 then None
      else PassThree(est, working, ShrinkAt(est, working, s, target.value), fuel - 1)
  }

  // ---- the whole ------------------------------------------------------------

  predicate PartAt(text: string, part: string, i: nat) {
    i + |part| <= |text| && text[i..i + |part|] == part
  }

  predicate Contains(text: string, part: string) {
    exists i | 0 <= i <= |text| :: PartAt(text, part, i)
  }

  function EstimateText(text: string): nat {
    if text == "" then 0 else Max(1, (|text| + 3) / 4)
  }

  /** The service's own estimator. */
  function EstimateMessages(messages: seq<Message>): nat {
    if messages == [] then 0
    else
      var n := |messages| - 1;
      EstimateMessages(messages[..n]) + EstimateText(messages[n].content) + 4
  }

  function Counted(b: Breakdown, m: Message, last: bool, lower: string -> string): Breakdown {
    var tokens := EstimateText(m.content) + 4;
    var content := lower(m.content);
    if IsSystem(m) then b.(system := b.system + tokens)
    else if last then b.(currentRequest := b.currentRequest + tokens)
    else if Contains(content, "connected internal source context") || Contains(content, "retrieved context")
    then b.(knowledge := b.knowledge + tokens)
    else if Contains(content, "tool") then b.(tools := b.tools + tokens)
    else b.(history := b.history + tokens)
  }

  /** The breakdown of the first `n` messages. */
  function BreakdownTo(messages: seq<Message>, n: nat, lower: string -> string): Breakdown
    requires n <= |messages|
  {
    if n == 0 then Breakdown(0, 0, 0, 0, 0)
    else Counted(BreakdownTo(messages, n - 1, lower), messages[n - 1], n == |messages|, lower)
  }

  function Total(b: Breakdown): int {
    b.system + b.history + b.knowledge + b.tools + b.currentRequest
  }

  lemma NothingCounted()
    ensures Total(Breakdown(0, 0, 0, 0, 0)) == 0
  {
  }

  lemma CountedOnce(b: Breakdown, m: Message, last: bool, lower: string -> string)
    ensures Total(Counted(b, m, last, lower)) == Total(b) + EstimateText(m.content) + 4
  {
    hide Contains;
  }

  /** Every token of the estimate is in exactly one place of the breakdown. */
  lemma {:induction false} BreakdownIsComplete(messages: seq<Message>, n: nat, lower: string -> string)
    requires n <= |messages|
    ensures Total(BreakdownTo(messages, n, lower)) == EstimateMessages(messages[..n])
  {
    hide Counted, Total, EstimateText;
    if n == 0 {
      assert Total(Breakdown(0, 0, 0, 0, 0)) == 0 by { NothingCounted(); }
    } else {
      BreakdownIsComplete(messages, n - 1, lower);
      CountedOnce(BreakdownTo(messages, n - 1, lower), messages[n - 1], n == |messages|, lower);
      assert messages[..n][..n - 1] == messages[..n - 1];
    }
  }

  /** The tokens of the messages of one kind. */
  function TokensOf(messages: seq<Message>, n: nat, kind: nat -> bool): nat
    requires n <= |messages|
  {
    if n == 0 then 0
    else TokensOf(messages, n - 1, kind) + if kind(n - 1) then EstimateText(messages[n - 1].content) + 4 else 0
  }

  predicate TellsKnowledge(content: string) {
    Contains(content, "connected internal source context") || Contains(content, "retrieved context")
  }

  /** A message that is neither a system message nor the last. */
  predicate Earlier(messages: seq<Message>, i: nat) {
    i + 1 < |messages| && !IsSystem(messages[i])
  }

  /** What is in each part of the breakdown: system messages; the last message; of the others, those that tell
      knowledge, of the rest those that speak of tools, and the history. */
  lemma {:induction false} BreakdownParts(messages: seq<Message>, n: nat, lower: string -> string)
    requires n <= |messages|
    ensures var b := BreakdownTo(messages, n, lower);
            && b.system == TokensOf(messages, n, (i: nat) => i < |messages| && IsSystem(messages[i]))
            && b.currentRequest == TokensOf(messages, n, (i: nat) => i + 1 == |messages| && !IsSystem(messages[i]))
            && b.knowledge == TokensOf(messages, n, (i: nat) => Earlier(messages, i) && TellsKnowledge(lower(messages[i].content)))
            && b.tools == TokensOf(messages, n, (i: nat) => Earlier(messages, i) && !TellsKnowledge(lower(messages[i].content))
                                                            && Contains(lower(messages[i].content), "tool"))
            && b.history == TokensOf(messages, n, (i: nat) => Earlier(messages, i) && !TellsKnowledge(lower(messages[i].content))
                                                              && !Contains(lower(messages[i].content), "tool"))
  {
    hide Contains, EstimateText;
    if n > 0 {
      BreakdownParts(messages, n - 1, lower);
    }
  }

  function Finish(est: Estimator, working: int, s: State, dropped: nat, lower: string -> string): Assembly {
    var estimated := est(s.messages);
    Assembly(s.messages, estimated, BreakdownTo(s.messages, |s.messages|, lower), dropped, s.compressed,
             s.warnings + if estimated > working then [StillExceeds] else [])
  }

  function Assembled(est: Estimator, working: int, raw: seq<RawMessage>, lower: string -> string, fuel: nat): Option<Assembly>
    requires est([]) <= working
  {
    var messages := Normalized(raw);
    var dropped := DropCount(est, working, messages, 0);
    var s := PassThree(est, working, PassTwo(est, working, WithoutOldest(messages, dropped)), fuel);
    if s.None? then None else Some(Finish(est, working, s.value, dropped, lower))
  }

  method OldestRemovableIndex(messages: seq<Message>) returns (r: Option<nat>)
    ensures r == OldestRemovable(messages)
  {
    for i := 0 to |messages|
      invariant var later := OldestRemovable(messages[i..]);
                OldestRemovable(messages) == if later.None? then None else Some(i + later.value)
    {
      assert messages[i..][1..] == messages[i + 1..];
      if messages[i].role != "system" && i != |messages| - 1 {
        return Some(i);
      }
    }
    return None;
  }

  method LongestCandidateIndex(messages: seq<Message>) returns (r: Option<nat>)
    ensures r == LongestCandidate(messages)
  {
    r := None;
    for i := 0 to |messages|
      invariant r == LongestCandidate(messages[..i])
    {
      assert messages[..i + 1][..i] == messages[..i];
      if messages[i].content != "" && messages[i].role != "system"
         && (r.None? || |messages[i].content| > |messages[r.value].content|) {
        r := Some(i);
      }
    }
    assert messages[..|messages|] == messages;
  }

  method BreakdownOf(messages: seq<Message>, lower: string -> string) returns (b: Breakdown)
    ensures b == BreakdownTo(messages, |messages|, lower)
  {
    b := Breakdown(0, 0, 0, 0, 0);
    for i := 0 to |messages|
      invariant b == BreakdownTo(messages, i, lower)
    {
      b := Counted(b, messages[i], i == |messages| - 1, lower);
    }
  }

  method NormalizeAll(raw: seq<RawMessage>) returns (messages: seq<Message>)
    ensures messages == Normalized(raw)
  {
    messages := [];
    for i := 0 to |raw|
      invariant messages + Normalized(raw[i..]) == Normalized(raw)
    {
      assert raw[i..][1..] == raw[i + 1..];
      if raw[i].content.Some? {
        messages := messages + [Normalize(raw[i])];
      }
    }
  }

  /** Pass one: pop the oldest removable message until the rest fits or none is left. */
  method DropUntilFits(est: Estimator, working: int, messages: seq<Message>) returns (selected: seq<Message>, dropped: nat)
    ensures dropped == DropCount(est, working, messages, 0) && selected == WithoutOldest(messages, dropped)
  {
    hide OldestRemovable, Removable, WithoutOldest;
    selected, dropped := messages, 0;
    DropNone(messages);
    while est(selected) > working && |selected| > 1
      invariant dropped <= Removable(messages) && selected == WithoutOldest(messages, dropped)
      invariant DropCount(est, working, messages, dropped) == DropCount(est, working, messages, 0)
      decreases |selected|
    {
      var index := OldestRemovableIndex(selected);
      DropsOldest(messages, dropped);
      PopIsDrop(selected, 0);
      if index.None? {
        return;
      }
      DropsCompose(messages, dropped);
      selected := selected[..index.value] + selected[index.value + 1..];
      dropped := dropped + 1;
    }
    DropsOldest(messages, dropped);
    NothingRemovable(selected);
  }

  lemma NothingRemovable(messages: seq<Message>)
    ensures |messages| <= 1 ==> Removable(messages) == 0
  {
  }

  lemma PassThreeRound(est: Estimator, working: int, s: State, fuel: nat)
    ensures var target := LongestCandidate(s.messages);
            PassThree(est, working, s, fuel)
            == if est(s.messages) <= working then Some(s)
               else if target.None? then Some(s.(warnings := s.warnings + [SystemTooLarge]))
               else if fuel == 0 then None
               else PassThree(est, working, ShrinkAt(est, working, s, target.value), fuel - 1)
  {
    hide ShrinkAt, LongestCandidate;
  }

  /** Pass three, with at most `fuel` rounds. */
  method ShrinkUntilFits(est: Estimator, working: int, s: State, fuel: nat) returns (r: Option<State>)
    ensures r == PassThree(est, working, s, fuel)
  {
    hide Shrink, LongestCandidate, PassThree;
    var selected, compressed, warnings := s.messages, s.compressed, s.warnings;
    var rounds := fuel;
    while est(selected) > working
      invariant PassThree(est, working, State(selected, compressed, warnings), rounds) == PassThree(est, working, s, fuel)
      decreases rounds
    {
      PassThreeRound(est, working, State(selected, compressed, warnings), rounds);
      var target := LongestCandidateIndex(selected);
      if target.None? {
        warnings := warnings + [SystemTooLarge];
        return Some(State(selected, compressed, warnings));
      }
      if rounds == 0 {
        return None;
      }
      rounds := rounds - 1;
      ghost var next := ShrinkAt(est, working, State(selected, compressed, warnings), target.value);
      var excess := est(selected) - working;
      selected := Rewrite(selected, target.value, Shrink(selected[target.value].content, excess));
      compressed := compressed + 1;
      if Compressed !in warnings {
        warnings := warnings + [Compressed];
      }
      assert State(selected, compressed, warnings) == next;
    }
    PassThreeRound(est, working, State(selected, compressed, warnings), rounds);
    return Some(State(selected, compressed, warnings));
  }

  /** The three passes in turn. */
  method Assemble(est: Estimator, working: int, raw: seq<RawMessage>, lower: string -> string, fuel: nat)
    returns (r: Option<Assembly>)
    requires est([]) <= working
    ensures r == Assembled(est, working, raw, lower, fuel)
  {
    hide WithoutOldest, DropCount, PassThree, Cut, BreakdownTo;
    var messages := NormalizeAll(raw);
    var selected, dropped := DropUntilFits(est, working, messages);
    var compressed: nat := 0;
    var warnings: seq<Warning> := [];
    ghost var start := PassTwo(est, working, selected);
    if est(selected) > working {
      var latest := |selected| - 1;
      var excess := est(selected) - working;
      var target := OldestRemovableIndex(selected);
      if target.None? && selected[latest].role != "system" {
        target := Some(latest);
      }
      if target.Some? {
        selected := Rewrite(selected, target.value, Cut(selected[target.value].content, excess));
        compressed := compressed + 1;
        warnings := warnings + [Compressed];
      } else {
        warnings := warnings + [SystemTooLarge];
      }
    }
    assert State(selected, compressed, warnings) == start;
    var shrunk := ShrinkUntilFits(est, working, State(selected, compressed, warnings), fuel);
    if shrunk.None? {
      return None;
    }
    selected, compressed, warnings := shrunk.value.messages, shrunk.value.compressed, shrunk.value.warnings;
    assert warnings + [] == warnings;
    var breakdown := BreakdownOf(selected, lower);
    var estimated := est(selected);
    if estimated > working {
      warnings := warnings + [StillExceeds];
    }
    return Some(Assembly(selected, estimated, breakdown, dropped, compressed, warnings));
  }

  // ---- what every estimator gets --------------------------------------------

  /** The two lists agree but for the content of the last message, and wholly if that is a system message. */
  ghost predicate OnlyLastRewritten(before: seq<Message>, after: seq<Message>) {
    && |after| == |before|
    && forall i :: 0 <= i < |before| ==>
         after[i].role == before[i].role
         && (i < |before| - 1 || IsSystem(before[i]) ==> after[i].content == before[i].content)
  }

  ghost predicate OnlyLastIsOther(messages: seq<Message>) {
    forall i :: 0 <= i < |messages| - 1 ==> IsSystem(messages[i])
  }

  /** Messages survive pass one too large only when nothing but the last is left to cut. */
  lemma OverflowLeavesSystems(est: Estimator, working: int, messages: seq<Message>)
    requires est(Trimmed(est, working, messages)) > working
    ensures OnlyLastIsOther(Trimmed(est, working, messages))
    ensures DropCount(est, working, messages, 0) == Removable(messages)
  {
    var dropped := DropCount(est, working, messages, 0);
    var kept := WithoutOldest(messages, dropped);
    hide WithoutOldest, DropCount;
    DropsOldest(messages, dropped);
    PopIsDrop(kept, 0);
  }

  lemma {:induction false} ShrinkingSparesOthers(est: Estimator, working: int, before: seq<Message>, s: State, fuel: nat)
    requires OnlyLastIsOther(before) && OnlyLastRewritten(before, s.messages)
    ensures var r := PassThree(est, working, s, fuel);
            r.Some? ==> OnlyLastRewritten(before, r.value.messages)
                        && (est(r.value.messages) <= working || forall m :: m in r.value.messages ==> !Candidate(m))
    decreases fuel
  {
    hide Shrink;
    if est(s.messages) > working && fuel > 0 {
      var target := LongestCandidate(s.messages);
      if target.Some? {
        ShrinkingSparesOthers(est, working, before, ShrinkAt(est, working, s, target.value), fuel - 1);
      }
    }
  }

  /** For any token estimator, whenever `assemble` returns: exactly the oldest messages that are neither system
      messages nor the last are dropped, as few as make the rest fit, and of what stays only the content of the
      last message may differ, and only if it is no system message and dropping was not enough.  The request
      then fits, or nothing but system messages has any content. */
  lemma AssembleTrimsOldestFirst(est: Estimator, working: int, raw: seq<RawMessage>, lower: string -> string, fuel: nat)
    requires est([]) <= working && Assembled(est, working, raw, lower, fuel).Some?
    ensures var a := Assembled(est, working, raw, lower, fuel).value;
            var messages := Normalized(raw);
            var kept := WithoutOldest(messages, a.dropped);
            && a.dropped <= Removable(messages)
            && (forall k :: 0 <= k < a.dropped ==> est(WithoutOldest(messages, k)) > working)
            && OnlyLastRewritten(kept, a.messages)
            && (est(kept) <= working ==> a.messages == kept && a.compressed == 0 && a.warnings == [])
            && (est(kept) > working ==> a.dropped == Removable(messages) && OnlyLastIsOther(kept))
            && (a.estimated <= working || forall m :: m in a.messages ==> !Candidate(m))
            && (StillExceeds in a.warnings <==> a.estimated > working)
  {
    hide WithoutOldest, DropCount, Cut, BreakdownTo, Removable;
    var messages := Normalized(raw);
    var dropped := DropCount(est, working, messages, 0);
    var kept := WithoutOldest(messages, dropped);
    assert Trimmed(est, working, messages) == kept;
    var s := PassTwo(est, working, kept);
    if est(kept) > working {
      OverflowLeavesSystems(est, working, messages);
      CutTargetsLast(kept);
      assert OnlyLastRewritten(kept, s.messages);
      ShrinkingSparesOthers(est, working, kept, s, fuel);
      WarningsStay(est, working, s, fuel);
    }
  }

  /** A rewritten content starts like the original and goes on with nothing but marker characters. */
  ghost predicate KeepsBeginning(original: string, content: string) {
    exists k :: 0 <= k <= |original| && k <= |content| && content[..k] == original[..k]
      && forall i :: k <= i < |content| ==> content[i] in TRUNCATED_TO_FIT
  }

  ghost predicate OnlyMarks(tail: string) {
    forall i :: 0 <= i < |tail| ==> tail[i] in TRUNCATED_TO_FIT
  }

  lemma StillBeginning(original: string, content: string, kept: nat, tail: string)
    requires KeepsBeginning(original, content) && kept <= |content| && OnlyMarks(tail)
    ensures KeepsBeginning(original, content[..kept] + tail)
  {
    var k :| 0 <= k <= |original| && k <= |content| && content[..k] == original[..k]
      && forall i :: k <= i < |content| ==> content[i] in TRUNCATED_TO_FIT;
    var m := Min(k, kept);
    var cut := content[..kept] + tail;
    assert cut[..m] == content[..k][..m] == original[..k][..m] == original[..m];
    forall i | m <= i < |cut|
      ensures cut[i] in TRUNCATED_TO_FIT
    {
      if i < kept {
        assert cut[i] == content[i];
      } else {
        assert cut[i] == tail[i - kept];
      }
    }
  }

  lemma CutKeepsBeginning(content: string, excess: int)
    ensures KeepsBeginning(content, Cut(content, excess))
  {
    WholeIsBeginning(content);
    StillBeginning(content, content, Min(Max(128, |content| - excess * 4), |content|), TRUNCATED_TO_FIT);
  }

  lemma WholeIsBeginning(content: string)
    ensures KeepsBeginning(content, content)
  {
    assert content[..|content|] == content;
  }

  lemma ShrinkKeepsBeginning(original: string, content: string, excess: int)
    requires content != "" && KeepsBeginning(original, content)
    ensures KeepsBeginning(original, Shrink(content, excess))
  {
    hide KeepsBeginning, OnlyMarks;
    var remove := Min(Max(excess * 4, 16), Max(1, |content| - 1));
    MarkersAlike();
    NoMarks();
    StillBeginning(original, content, |content| - remove, TRUNCATED);
    StillBeginning(original, content, 0, "");
    assert content[..0] + "" == "";
  }

  lemma NoMarks()
    ensures OnlyMarks("")
  {
  }

  lemma MarkersAlike()
    ensures OnlyMarks(TRUNCATED)
  {
    MarkerLengths();
    forall i | 0 <= i < |TRUNCATED|
      ensures TRUNCATED[i] in TRUNCATED_TO_FIT
    {
      var j := if i < 19 then i else i + 26;
      assert TRUNCATED[i] == TRUNCATED_TO_FIT[j];
    }
  }

  ghost predicate BeginningsKept(before: seq<Message>, after: seq<Message>) {
    |after| == |before| && forall i :: 0 <= i < |before| ==> KeepsBeginning(before[i].content, after[i].content)
  }

  lemma BeginningsStart(messages: seq<Message>)
    ensures BeginningsKept(messages, messages)
  {
    hide KeepsBeginning;
    forall i | 0 <= i < |messages|
      ensures KeepsBeginning(messages[i].content, messages[i].content)
    {
      WholeIsBeginning(messages[i].content);
    }
  }

  lemma {:induction false} ShrinkingKeepsBeginnings(est: Estimator, working: int, before: seq<Message>, s: State, fuel: nat)
    requires BeginningsKept(before, s.messages)
    ensures var r := PassThree(est, working, s, fuel); r.Some? ==> BeginningsKept(before, r.value.messages)
    decreases fuel
  {
    hide Shrink, KeepsBeginning;
    if est(s.messages) > working && fuel > 0 && LongestCandidate(s.messages).Some? {
      var i := LongestCandidate(s.messages).value;
      ShrinkKeepsBeginning(before[i].content, s.messages[i].content, est(s.messages) - working);
      ShrinkingKeepsBeginnings(est, working, before, ShrinkAt(est, working, s, i), fuel - 1);
    }
  }

  /** Whenever `assemble` returns, every surviving content starts like the original, and what was cut away is replaced
      by markers only. */
  lemma AssembleKeepsBeginnings(est: Estimator, working: int, raw: seq<RawMessage>, lower: string -> string, fuel: nat)
    requires est([]) <= working && Assembled(est, working, raw, lower, fuel).Some?
    ensures var a := Assembled(est, working, raw, lower, fuel).value;
            BeginningsKept(WithoutOldest(Normalized(raw), a.dropped), a.messages)
  {
    hide WithoutOldest, DropCount, BreakdownTo, Cut, KeepsBeginning, PassThree, OldestRemovable;
    var messages := Normalized(raw);
    var kept := WithoutOldest(messages, DropCount(est, working, messages, 0));
    var s := PassTwo(est, working, kept);
    BeginningsStart(kept);
    if est(kept) > working && CutTarget(kept).Some? {
      CutKeepsBeginning(kept[CutTarget(kept).value].content, est(kept) - working);
    }
    ShrinkingKeepsBeginnings(est, working, kept, s, fuel);
  }

  lemma CutTargetsLast(messages: seq<Message>)
    requires messages != [] && OnlyLastIsOther(messages)
    ensures CutTarget(messages) == if IsSystem(messages[|messages| - 1]) then None else Some(|messages| - 1)
  {
  }

  lemma {:induction false} WarningsStay(est: Estimator, working: int, s: State, fuel: nat)
    requires StillExceeds !in s.warnings
    ensures var r := PassThree(est, working, s, fuel); r.Some? ==> StillExceeds !in r.value.warnings
    decreases fuel
  {
    hide Shrink, Rewrite, LongestCandidate;
    if est(s.messages) > working && fuel > 0 && LongestCandidate(s.messages).Some? {
      WarningsStay(est, working, ShrinkAt(est, working, s, LongestCandidate(s.messages).value), fuel - 1);
    }
  }

  // ---- when the last loop ends ----------------------------------------------

  lemma MarkerLengths()
    ensures |TRUNCATED_TO_FIT| == 47 && |TRUNCATED| == 21
  {
  }

  lemma EstimateSnoc(front: seq<Message>, last: Message)
    ensures EstimateMessages(front + [last]) == EstimateMessages(front) + EstimateText(last.content) + 4
  {
    assert (front + [last])[..|front|] == front;
  }

  lemma {:induction false} NoCandidates(messages: seq<Message>)
    requires forall m :: m in messages ==> !Candidate(m)
    ensures LongestCandidate(messages) == None
  {
    if messages != [] {
      NoCandidates(messages[..|messages| - 1]);
    }
  }

  lemma OnlyCandidate(front: seq<Message>, last: Message)
    requires forall m :: m in front ==> IsSystem(m)
    requires !IsSystem(last)
    ensures LongestCandidate(front + [last]) == if last.content == "" then None else Some(|front|)
  {
    assert (front + [last])[..|front|] == front;
    NoCandidates(front);
  }

  /** The state of the last loop when only the last message can be cut. */
  function Tail(front: seq<Message>, role: string, content: string, compressed: nat): State {
    State(front + [Message(role, content)], compressed, [Compressed])
  }

  /** The service's estimator as a function value. */
  const HEURISTIC: Estimator := (messages: seq<Message>) => EstimateMessages(messages)

  lemma Applied(messages: seq<Message>)
    ensures HEURISTIC(messages) == EstimateMessages(messages)
    ensures HEURISTIC([]) == 0
  {
  }

  /** One round of the last loop; `room` is how many tokens the other messages leave to the last content. */
  lemma OneRound(working: int, front: seq<Message>, role: string, content: string, compressed: nat, fuel: nat, room: int)
    requires (forall m :: m in front ==> IsSystem(m)) && role != "system"
    requires room == working - EstimateMessages(front) - 4
    ensures var run := PassThree(HEURISTIC, working, Tail(front, role, content, compressed), fuel);
            var s := Tail(front, role, content, compressed);
            if EstimateText(content) <= room then run == Some(s)
            else if content == "" then run == Some(s.(warnings := [Compressed, SystemTooLarge]))
            else if fuel == 0 then run == None
            else run == PassThree(HEURISTIC, working,
                                  Tail(front, role, Shrink(content, EstimateText(content) - room), compressed + 1), fuel - 1)
  {
    hide EstimateText, EstimateMessages, Shrink, LongestCandidate;
    var last := Message(role, content);
    EstimateSnoc(front, last);
    Applied(front + [last]);
    OnlyCandidate(front, last);
    assert [Compressed] + [SystemTooLarge] == [Compressed, SystemTooLarge];
    if EstimateText(content) > room && content != "" && fuel > 0 {
      var shrunk := Shrink(content, EstimateText(content) - room);
      assert Rewrite(front + [last], |front|, shrunk) == front + [Message(role, shrunk)];
      assert ShrinkAt(HEURISTIC, working, Tail(front, role, content, compressed), |front|)
          == Tail(front, role, shrunk, compressed + 1);
    }
  }

  /** With room for seven tokens or more a long content never gets short enough: what a round removes, the
      marker gives back. */
  lemma {:induction false} LongContentNeverFits(working: int, front: seq<Message>, role: string, content: string, compressed: nat,
                                                fuel: nat, room: int)
    requires (forall m :: m in front ==> IsSystem(m)) && role != "system"
    requires room == working - EstimateMessages(front) - 4
    requires room >= 7 && |content| >= 4 * room + 18
    ensures PassThree(HEURISTIC, working, Tail(front, role, content, compressed), fuel) == None
    decreases fuel
  {
    hide PassThree, EstimateMessages;
    OneRound(working, front, role, content, compressed, fuel, room);
    if fuel > 0 {
      var excess := EstimateText(content) - room;
      MarkerLengths();
      LongContentNeverFits(working, front, role, Shrink(content, excess), compressed + 1, fuel - 1, room);
    }
  }

  /** With room for at most six tokens, a content that does not fit shrinks to nothing within four rounds. */
  lemma ContentErased(working: int, front: seq<Message>, role: string, content: string, compressed: nat, fuel: nat, room: int)
    requires (forall m :: m in front ==> IsSystem(m)) && role != "system"
    requires room == working - EstimateMessages(front) - 4
    requires room <= 6 && EstimateText(content) > room && fuel >= RoundsLeft(|content|)
    ensures var r := PassThree(HEURISTIC, working, Tail(front, role, content, compressed), fuel);
            r.Some? && r.value.messages == front + [Message(role, "")]
    decreases RoundsLeft(|content|)
  {
    hide PassThree, EstimateMessages;
    OneRound(working, front, role, content, compressed, fuel, room);
    if content != "" {
      var shrunk := Shrink(content, EstimateText(content) - room);
      MarkerLengths();
      if shrunk == "" {
        OneRound(working, front, role, "", compressed + 1, fuel - 1, room);
      } else {
        ContentErased(working, front, role, shrunk, compressed + 1, fuel - 1, room);
      }
    }
  }

  function RoundsLeft(length: nat): nat {
    if length == 0 then 0 else if length == 45 then 1 else if length == 44 then 2 else if length == 43 then 3 else 4
  }

  lemma {:induction false} EstimateCons(m: Message, rest: seq<Message>)
    ensures EstimateMessages([m] + rest) == EstimateText(m.content) + 4 + EstimateMessages(rest)
  {
    hide EstimateText;
    var n := |rest| - 1;
    if rest == [] {
      EstimateSnoc([], m);
      assert [] + [m] == [m] + rest;
    } else {
      EstimateCons(m, rest[..n]);
      assert ([m] + rest)[..n + 1] == [m] + rest[..n];
    }
  }

  /** The fewest messages that pass one can leave. */
  lemma {:induction false} DropAll(messages: seq<Message>)
    requires messages != []
    ensures var n := |messages| - 1;
            WithoutOldest(messages, Removable(messages)) == Systems(messages[..n]) + [messages[n]]
  {
    var n := |messages| - 1;
    if n > 0 {
      DropAll(messages[1..]);
      assert messages[..n][1..] == messages[1..][..n - 1];
      DropNone(messages[1..]);
    }
  }

  lemma {:induction false} DroppingSaves(messages: seq<Message>, k: nat)
    requires k <= Removable(messages)
    ensures EstimateMessages(WithoutOldest(messages, Removable(messages))) <= EstimateMessages(WithoutOldest(messages, k))
    decreases |messages|
  {
    hide EstimateMessages, EstimateText;
    if |messages| > 1 {
      var rest := messages[1..];
      var all := Removable(messages);
      DropNone(rest);
      assert messages == [messages[0]] + rest;
      if IsSystem(messages[0]) {
        DroppingSaves(rest, k);
        EstimateCons(messages[0], WithoutOldest(rest, k));
        EstimateCons(messages[0], WithoutOldest(rest, all));
      } else {
        DroppingSaves(rest, if k == 0 then 0 else k - 1);
        EstimateCons(messages[0], rest);
      }
    }
  }

  lemma {:induction false} SystemsAreSystem(messages: seq<Message>)
    ensures forall m :: m in Systems(messages) ==> IsSystem(m)
  {
    if messages != [] {
      SystemsAreSystem(messages[1..]);
    }
  }

  /** How many tokens the system messages leave to the content of the last message. */
  function Room(working: int, messages: seq<Message>): int
    requires messages != []
  {
    working - EstimateMessages(Systems(messages[..|messages| - 1])) - 4
  }

  /** The last message is neither a system message nor small enough for what the system messages leave. */
  predicate LastTooLarge(working: int, messages: seq<Message>) {
    messages != []
    && !IsSystem(messages[|messages| - 1])
    && EstimateText(messages[|messages| - 1].content) > Room(working, messages)
  }

  predicate NeverEnds(working: int, messages: seq<Message>) {
    LastTooLarge(working, messages) && Room(working, messages) >= 7
  }

  /** Exactly then do passes two and three have a message to cut. */
  lemma KeptWhenTooLarge(working: nat, messages: seq<Message>)
    requires messages != []
    ensures var n := |messages| - 1;
            var kept := Trimmed(HEURISTIC, working, messages);
            && (EstimateMessages(kept) > working <==> EstimateText(messages[n].content) > Room(working, messages))
            && (EstimateMessages(kept) > working ==> kept == Systems(messages[..n]) + [messages[n]])
  {
    hide WithoutOldest, EstimateMessages, EstimateText, DropCount;
    var n := |messages| - 1;
    var dropped := DropCount(HEURISTIC, working, messages, 0);
    DropAll(messages);
    EstimateSnoc(Systems(messages[..n]), messages[n]);
    DroppingSaves(messages, dropped);
    Applied(WithoutOldest(messages, dropped));
    if EstimateMessages(Trimmed(HEURISTIC, working, messages)) > working {
      OverflowLeavesSystems(HEURISTIC, working, messages);
    }
  }

  /** With the service's own estimator, `assemble` returns if and only if the last message fits beside the system
      messages, is itself a system message, or finds room for at most six tokens. */
  lemma AssembleReturnsIff(working: nat, raw: seq<RawMessage>, lower: string -> string)
    ensures (exists fuel: nat :: Assembled(HEURISTIC, working, raw, lower, fuel).Some?)
       <==> !NeverEnds(working, Normalized(raw))
  {
    hide Assembled, NeverEnds;
    if NeverEnds(working, Normalized(raw)) {
      forall fuel: nat ensures Assembled(HEURISTIC, working, raw, lower, fuel).None? {
        AssembleHangs(working, raw, lower, fuel);
      }
    } else {
      AssembleEndsAtOnce(working, raw, lower, 4);
    }
  }

  lemma AssembleHangs(working: nat, raw: seq<RawMessage>, lower: string -> string, fuel: nat)
    requires NeverEnds(working, Normalized(raw))
    ensures Assembled(HEURISTIC, working, raw, lower, fuel).None?
  {
    hide PassThree, EstimateMessages, DropCount, WithoutOldest;
    var messages := Normalized(raw);
    var n, room := |messages| - 1, Room(working, messages);
    var front, last := Systems(messages[..n]), messages[n];
    CutLast(working, messages);
    SystemsAreSystem(messages[..n]);
    MarkerLengths();
    LongContentNeverFits(working, front, last.role, Cut(last.content, EstimateText(last.content) - room), 1, fuel, room);
  }

  /** In every other case four rounds of the last loop are enough, and a last message that did not fit is
      returned with no content at all. */
  lemma AssembleEndsAtOnce(working: nat, raw: seq<RawMessage>, lower: string -> string, fuel: nat)
    requires !NeverEnds(working, Normalized(raw))
    requires fuel >= 4
    ensures var a := Assembled(HEURISTIC, working, raw, lower, fuel);
            var messages := Normalized(raw);
            a.Some? && (LastTooLarge(working, messages) ==>
                          a.value.messages == Systems(messages[..|messages| - 1])
                                              + [Message(messages[|messages| - 1].role, "")])
  {
    hide EstimateMessages, DropCount, WithoutOldest, EstimateText, PassTwo, PassThree;
    var messages := Normalized(raw);
    var kept := Trimmed(HEURISTIC, working, messages);
    if LastTooLarge(working, messages) {
      LastErased(working, messages, fuel);
    } else {
      NothingToCut(working, messages, fuel);
    }
  }

  lemma NothingToCut(working: nat, messages: seq<Message>, fuel: nat)
    requires !LastTooLarge(working, messages)
    ensures PassThree(HEURISTIC, working, PassTwo(HEURISTIC, working, Trimmed(HEURISTIC, working, messages)), fuel).Some?
  {
    hide EstimateMessages, DropCount, EstimateText, LongestCandidate;
    var kept := Trimmed(HEURISTIC, working, messages);
    Applied(kept);
    if HEURISTIC(kept) > working {
      if messages == [] {
        assert kept == [];
      } else {
        var n := |messages| - 1;
        hide WithoutOldest, Systems;
        KeptWhenTooLarge(working, messages);
        SystemsAreSystem(messages[..n]);
        CutTargetsLast(kept);
        NoCandidates(kept);
      }
    }
  }

  lemma LastErased(working: nat, messages: seq<Message>, fuel: nat)
    requires LastTooLarge(working, messages) && Room(working, messages) <= 6 && fuel >= 4
    ensures var n := |messages| - 1;
            var r := PassThree(HEURISTIC, working, PassTwo(HEURISTIC, working, Trimmed(HEURISTIC, working, messages)), fuel);
            r.Some? && r.value.messages == Systems(messages[..n]) + [Message(messages[n].role, "")]
  {
    hide EstimateMessages, DropCount, WithoutOldest, EstimateText, PassTwo, PassThree, Cut, Tail;
    var n, room := |messages| - 1, Room(working, messages);
    var last := messages[n];
    SystemsAreSystem(messages[..n]);
    CutLast(working, messages);
    CutStaysTooLarge(last.content, room);
    var cut := Cut(last.content, EstimateText(last.content) - room);
    ContentErased(working, Systems(messages[..n]), last.role, cut, 1, fuel, room);
  }

  /** One user message that is too long for the whole budget is enough to keep it from returning. */
  lemma LoneMessageHangs(working: nat, content: string, lower: string -> string, fuel: nat)
    requires working >= 11 && |content| > 4 * (working - 4)
    ensures Assembled(HEURISTIC, working, [RawMessage(Some("user"), Some(content))], lower, fuel).None?
  {
    hide Assembled;
    var raw := [RawMessage(Some("user"), Some(content))];
    assert Normalized(raw[1..]) == [];
    assert Normalized(raw) == [Message("user", content)];
    assert "user"[0] == 'u' && "system"[0] == 's';
    AssembleHangs(working, raw, lower, fuel);
  }

  lemma CutStaysTooLarge(content: string, room: int)
    requires EstimateText(content) > room
    ensures var cut := Cut(content, EstimateText(content) - room);
            EstimateText(cut) > room && (room >= 7 ==> |cut| >= 4 * room + 18)
  {
    MarkerLengths();
  }

  /** Pass two then cuts the last message. */
  lemma CutLast(working: nat, messages: seq<Message>)
    requires LastTooLarge(working, messages)
    ensures var n, room := |messages| - 1, Room(working, messages);
            var content := messages[n].content;
            PassTwo(HEURISTIC, working, Trimmed(HEURISTIC, working, messages))
            == Tail(Systems(messages[..n]), messages[n].role, Cut(content, EstimateText(content) - room), 1)
  {
    hide EstimateText, DropCount, WithoutOldest, Cut, OldestRemovable;
    var n, room := |messages| - 1, Room(working, messages);
    var front, last := Systems(messages[..n]), messages[n];
    var kept := Trimmed(HEURISTIC, working, messages);
    KeptWhenTooLarge(working, messages);
    Applied(kept);
    EstimateSnoc(front, last);
    SystemsAreSystem(messages[..n]);
    CutTargetsLast(kept);
    var cut := Cut(last.content, EstimateText(last.content) - room);
    assert Rewrite(front + [last], |front|, cut) == front + [Message(last.role, cut)];
  }

  /** More rounds change nothing once the last loop has ended. */
  lemma {:induction false} MoreFuelSame(est: Estimator, working: int, s: State, fuel: nat, more: nat)
    requires PassThree(est, working, s, fuel).Some? && fuel <= more
    ensures PassThree(est, working, s, more) == PassThree(est, working, s, fuel)
    decreases fuel
  {
    hide ShrinkAt;
    if est(s.messages) > working && LongestCandidate(s.messages).Some? {
      MoreFuelSame(est, working, ShrinkAt(est, working, s, LongestCandidate(s.messages).value), fuel - 1, more - 1);
    }
  }
}
