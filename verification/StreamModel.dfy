// The values a canonical chat stream is made of, and what a whole stream of them means:
// which finish reasons each choice was given, whether it produced output, and how the
// provider's evidence is resolved into one public reason per choice.
module StreamModel {
  import opened Prelude

  datatype FinishReason = Stop | Length | ToolCalls | ContentFilter

  datatype Outcome = Completed | Incomplete | Blocked

  datatype Reason = ForStop | ForLength | ForToolCalls | ForContentFilter | ForRefusal | ForOther

  datatype Terminal = Terminal(outcome: Outcome, reason: Reason)

  datatype Usage = Usage(promptTokens: nat, completionTokens: nat, totalTokens: nat)

  datatype CanonicalTerminal = CanonicalTerminal(outcome: Outcome, reason: Reason, usage: Option<Usage>)

  datatype Semantic = Metadata | Reasoning | Content | Tool | Media | UsageOnly

  // `audio` may be left out, be null, or be an object.
  datatype Audio = NoAudio | NullAudio | AudioObject(data: string)

  datatype ToolCall = ToolCall(index: nat, id: string, arguments: string)

  // An absent text field and an empty one are the same value here: only lengths are looked at.
  datatype Delta = Delta(content: string, reasoning: string, refusal: string, toolCalls: seq<ToolCall>,
                         audio: Audio, providerFields: string)

  const EMPTY_DELTA := Delta("", "", "", [], NoAudio, "")

  datatype Choice = Choice(index: int, delta: Delta, finishReason: Option<FinishReason>, logprobs: string)

  datatype Terminator = EofMark | DoneMarker | SemanticEvent | WebSocketTurn

  datatype MetaValue = MetaBool(b: bool) | MetaOther(text: string)

  datatype Diagnostics = Diagnostics(terminal: Option<Terminal>, terminator: Option<Terminator>,
                                     fields: map<string, string>, metadata: map<string, MetaValue>)

  datatype Chunk = Chunk(id: string, created: int, model: string, choices: seq<Choice>,
                         usage: Option<Usage>, diagnostics: Option<Diagnostics>)

  predicate DeltaHasOutput(d: Delta) {
    |d.toolCalls| > 0 || |d.content| > 0 || |d.reasoning| > 0 || |d.refusal| > 0 || d.audio != NoAudio
  }

  function ChunkSemantic(chunk: Chunk): Semantic {
    if exists c | c in chunk.choices :: |c.delta.toolCalls| > 0 then Tool
    else if exists c | c in chunk.choices ::
        |c.delta.content| > 0 || |c.delta.refusal| > 0 || c.delta.audio != NoAudio then Content
    else if exists c | c in chunk.choices :: |c.delta.reasoning| > 0 then Reasoning
    else if chunk.usage.Some? then UsageOnly
    else Metadata
  }

  // A chunk with every provider finish reason withheld and nothing else changed.
  function Erase(chunk: Chunk): Chunk {
    chunk.(choices := seq(|chunk.choices|, i requires 0 <= i < |chunk.choices| =>
      chunk.choices[i].(finishReason := None)))
  }

  function EraseAll(chunks: seq<Chunk>): (r: seq<Chunk>)
    ensures |r| == |chunks|
    ensures forall i | 0 <= i < |chunks| :: r[i] == Erase(chunks[i])
  {
    seq(|chunks|, i requires 0 <= i < |chunks| => Erase(chunks[i]))
  }

  // All choices of a stream, in arrival order.
  function Choices(chunks: seq<Chunk>): seq<Choice> {
    if chunks == [] then [] else Choices(chunks[..|chunks| - 1]) + chunks[|chunks| - 1].choices
  }

  ghost function Indexes(cs: seq<Choice>): set<int> {
    set c | c in cs :: c.index
  }

  ghost function ReasonsSeen(cs: seq<Choice>, index: int): set<FinishReason> {
    set c | c in cs && c.index == index && c.finishReason.Some? :: c.finishReason.value
  }

  ghost predicate OutputSeen(cs: seq<Choice>, index: int) {
    exists c :: c in cs && c.index == index && DeltaHasOutput(c.delta)
  }

  ghost predicate ToolSeen(cs: seq<Choice>, index: int) {
    exists c :: c in cs && c.index == index && |c.delta.toolCalls| > 0
  }

  // Any two reasons agree or are the pair {stop, tool_calls}.
  ghost predicate Compatible(reasons: set<FinishReason>) {
    forall a, b | a in reasons && b in reasons ::
      a == b || (a == Stop && b == ToolCalls) || (a == ToolCalls && b == Stop)
  }

  // The one reason a compatible set stands for.
  function Merged(reasons: set<FinishReason>): Option<FinishReason> {
    if ToolCalls in reasons then Some(ToolCalls)
    else if Stop in reasons then Some(Stop)
    else if Length in reasons then Some(Length)
    else if ContentFilter in reasons then Some(ContentFilter)
    else None
  }

  // A stop is promoted to tool_calls when the choice carried a tool delta.
  function Promote(reason: FinishReason, hasTool: bool): FinishReason {
    if hasTool && reason == Stop then ToolCalls else reason
  }

  // --- How the observer's per-choice state is updated -------------------------------------

  datatype ChoiceState = ChoiceState(finish: Option<FinishReason>, hasOutput: bool, hasTool: bool)

  const FRESH_CHOICE := ChoiceState(None, false, false)

  predicate Conflicts(current: Option<FinishReason>, next: FinishReason) {
    current.Some? && current.value != next &&
    !(Stop in [current.value, next] && ToolCalls in [current.value, next])
  }

  function MergeFinish(current: Option<FinishReason>, next: FinishReason): FinishReason {
    if current == Some(ToolCalls) || next == ToolCalls then ToolCalls else next
  }

  ghost function Summary(cs: seq<Choice>, index: int): ChoiceState {
    ChoiceState(Merged(ReasonsSeen(cs, index)), OutputSeen(cs, index), ToolSeen(cs, index))
  }

  lemma CompatibleMeaning(reasons: set<FinishReason>)
    ensures Compatible(reasons) <==> |reasons| <= 1 || reasons == {Stop, ToolCalls}
    ensures Compatible(reasons) ==> (Merged(reasons) == None <==> reasons == {})
    ensures Compatible(reasons) && Merged(reasons).Some? ==> Merged(reasons).value in reasons
    ensures Merged(reasons) == Some(ToolCalls) <==> ToolCalls in reasons
  {
    if |reasons| <= 1 {
      forall a, b | a in reasons && b in reasons
        ensures a == b
      {
        if a != b { assert {a, b} <= reasons; SubsetSize({a, b}, reasons); }
      }
    } else {
      TwoCompatible(reasons);
    }
    if r :| r in reasons {
      assert r == Stop || r == Length || r == ToolCalls || r == ContentFilter;
    }
  }

  lemma TwoCompatible(reasons: set<FinishReason>)
    requires |reasons| > 1
    ensures Compatible(reasons) <==> reasons == {Stop, ToolCalls}
  {
    if Compatible(reasons) {
      var a := SomeElement(reasons);
      assert |{a}| == 1;
      assert reasons - {a} != {} by { assert reasons == {a} + (reasons - {a}); }
      var b := SomeElement(reasons - {a});
      assert a in reasons && b in reasons;
    }
  }

  lemma {:induction false} SubsetSize<T>(small: set<T>, big: set<T>)
    requires small <= big
    ensures |small| <= |big|
  {
    assert big == small + (big - small);
  }

  // One step of the in-loop merge, read as a step on sets: the merge rejects exactly when the
  // enlarged set stops being compatible, and otherwise keeps standing for that set.
  lemma MergeStep(reasons: set<FinishReason>, next: FinishReason)
    requires Compatible(reasons)
    ensures Conflicts(Merged(reasons), next) <==> !Compatible(reasons + {next})
    ensures Compatible(reasons + {next}) ==> Merged(reasons + {next}) == Some(MergeFinish(Merged(reasons), next))
  {
    hide Compatible, Merged, Conflicts;
    CompatibleShape(reasons);
    var grown := reasons + {next};
    if reasons == {} {
      assert grown == {next, next};
      SmallSets(next, next);
    } else if reasons == {Stop, ToolCalls} {
      assert grown == {Stop, ToolCalls} + {next};
      GrowingThePair(next);
    } else {
      var r := Merged(reasons).value;
      assert grown == {r, next};
      SmallSets(r, next);
    }
    ConflictMeaning(Merged(reasons), next);
  }

  lemma CompatibleShape(reasons: set<FinishReason>)
    requires Compatible(reasons)
    ensures (reasons == {} && Merged(reasons) == None) ||
            (reasons == {Stop, ToolCalls} && Merged(reasons) == Some(ToolCalls)) ||
            (Merged(reasons).Some? && reasons == {Merged(reasons).value})
  {
    CompatibleMeaning(reasons);
    if reasons != {} && reasons != {Stop, ToolCalls} {
      var r := Merged(reasons).value;
      forall x | x in reasons ensures x == r {
        assert r in reasons;
      }
    }
  }

  predicate Pairs(a: FinishReason, b: FinishReason) {
    a == b || (a == Stop && b == ToolCalls) || (a == ToolCalls && b == Stop)
  }

  lemma SmallSets(a: FinishReason, b: FinishReason)
    ensures Compatible({a, b}) <==> Pairs(a, b)
    ensures Pairs(a, b) ==> Merged({a, b}) == Some(if a == ToolCalls || b == ToolCalls then ToolCalls else b)
  {
    assert a in {a, b} && b in {a, b};
  }

  lemma GrowingThePair(next: FinishReason)
    ensures Compatible({Stop, ToolCalls} + {next}) <==> next == Stop || next == ToolCalls
    ensures Merged({Stop, ToolCalls} + {next}) == Some(ToolCalls)
  {
    var grown := {Stop, ToolCalls} + {next};
    assert Stop in grown && ToolCalls in grown && next in grown;
  }

  lemma ConflictMeaning(current: Option<FinishReason>, next: FinishReason)
    ensures Conflicts(current, next) <==> current.Some? && !Pairs(current.value, next)
  {
  }

  lemma {:induction false} SubsetsStayCompatible(small: set<FinishReason>, big: set<FinishReason>)
    requires small <= big && Compatible(big)
    ensures Compatible(small)
  {
  }

  // Reasons, output and tool flags after one more choice.
  lemma SummaryStep(cs: seq<Choice>, c: Choice, index: int)
    ensures ReasonsSeen(cs + [c], index) ==
            ReasonsSeen(cs, index) + if c.index == index && c.finishReason.Some? then {c.finishReason.value} else {}
    ensures OutputSeen(cs + [c], index) <==> OutputSeen(cs, index) || (c.index == index && DeltaHasOutput(c.delta))
    ensures ToolSeen(cs + [c], index) <==> ToolSeen(cs, index) || (c.index == index && |c.delta.toolCalls| > 0)
    ensures Indexes(cs + [c]) == Indexes(cs) + {c.index}
  {
    var grown := cs + [c];
    assert forall x :: x in grown <==> x in cs || x == c;
    assert forall x | x in cs :: x in grown;
    assert c in grown;
  }

  lemma MoreChoicesMoreReasons(cs: seq<Choice>, more: seq<Choice>, index: int)
    ensures ReasonsSeen(cs, index) <= ReasonsSeen(cs + more, index)
  {
    assert forall x | x in cs :: x in cs + more;
  }

  lemma ChoicesStep(chunks: seq<Chunk>, k: nat)
    requires k < |chunks|
    ensures Choices(chunks[..k + 1]) == Choices(chunks[..k]) + chunks[k].choices
  {
    assert chunks[..k + 1][..k] == chunks[..k];
  }

  lemma {:induction false} LaterChoicesExtend(chunks: seq<Chunk>, k: nat)
    requires k <= |chunks|
    ensures Choices(chunks[..k]) <= Choices(chunks)
    decreases |chunks| - k
  {
    if k == |chunks| {
      assert chunks[..k] == chunks;
    } else {
      ChoicesStep(chunks, k);
      LaterChoicesExtend(chunks, k + 1);
    }
  }

  // The verdict on a choice depends only on which (index, reason) pairs, tool deltas and outputs
  // occur, never on their order or repetition.
  lemma OrderIrrelevant(a: seq<Choice>, b: seq<Choice>, index: int)
    requires Elements(a) == Elements(b)
    ensures ReasonsSeen(a, index) == ReasonsSeen(b, index)
    ensures Summary(a, index) == Summary(b, index)
  {
    assert forall x :: x in a <==> x in Elements(a);
    assert forall x :: x in b <==> x in Elements(b);
    assert forall x :: x in a <==> x in b;
    assert ReasonsSeen(a, index) == ReasonsSeen(b, index);
  }
}
