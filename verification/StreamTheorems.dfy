// What the observer's contract gives its callers: held-back finish reasons, order-free merging,
// deadlines over whole runs, and agreement with the non-streaming path.
module StreamTheorems {
  import opened Prelude
  import opened StreamModel
  import opened StreamLifecycle

  // --- Emission ---------------------------------------------------------------------------------

  predicate Silent(chunk: Chunk) {
    forall c | c in chunk.choices :: c.finishReason.None?
  }

  // A chunk differs from the provider's chunk in its finish reasons only.
  ghost predicate SameButReasons(provider: Chunk, public: Chunk) {
    |public.choices| == |provider.choices| && public.(choices := []) == provider.(choices := []) &&
    forall i | 0 <= i < |provider.choices| ::
      public.choices[i].index == provider.choices[i].index && public.choices[i].delta == provider.choices[i].delta &&
      public.choices[i].logprobs == provider.choices[i].logprobs
  }

  lemma FinishReasonsAreHeldBack(run: Run, emitted: seq<Chunk>, error: Option<StreamError>,
                                 terminal: Option<CanonicalTerminal>)
    requires Concluded(run, emitted, error, terminal)
    ensures forall i | 0 <= i < |emitted| && i < |run.frames| ::
              Silent(emitted[i]) && SameButReasons(run.frames[i].chunk, emitted[i])
    ensures error.Some? ==> |emitted| <= |run.frames| && forall i | 0 <= i < |emitted| :: Silent(emitted[i])
    ensures error.None? ==>
              |emitted| == |run.frames| + 1 &&
              StrictlyAscending(ChoiceIndexes(emitted[|run.frames|].choices)) &&
              Elements(ChoiceIndexes(emitted[|run.frames|].choices)) == Indexes(Choices(ChunksOf(run.frames))) &&
              forall c | c in emitted[|run.frames|].choices :: c.finishReason.Some?
    ensures error.None? ==>
              run.frames != [] &&
              var last, t := run.frames[|run.frames| - 1].chunk, emitted[|run.frames|];
              t.id == last.id && t.created == last.created && t.model == last.model && t.usage.None? &&
              forall c | c in t.choices :: c.delta == EMPTY_DELTA && c.logprobs == ""
  {
    hide IsTerminalChunk, Explains, FrameAccepted;
    var chunks := ChunksOf(run.frames);
    forall i | 0 <= i < |emitted| && i < |run.frames|
      ensures emitted[i] == Erase(chunks[i])
    {
      if error.None? { assert emitted[i] == emitted[..|chunks|][i]; }
    }
    if error.None? { TerminalIndexes(run, emitted[|chunks|]); }
  }

  lemma TerminalIndexes(run: Run, t: Chunk)
    requires IsTerminalChunk(run, t)
    ensures StrictlyAscending(ChoiceIndexes(t.choices))
    ensures Elements(ChoiceIndexes(t.choices)) == Indexes(Choices(ChunksOf(run.frames)))
    ensures forall c | c in t.choices :: c.finishReason.Some?
    ensures run.frames != []
    ensures var last := run.frames[|run.frames| - 1].chunk;
            t.id == last.id && t.created == last.created && t.model == last.model && t.usage.None? &&
            forall c | c in t.choices :: c.delta == EMPTY_DELTA && c.logprobs == ""
  {
  }

  // --- The in-loop merge is a function of the set of reasons ---------------------------------------

  // The merge as the loop runs it, one non-null reason at a time; an error carries the reason refused.
  function FoldFinish(reasons: seq<FinishReason>): Result<Option<FinishReason>, FinishReason> {
    if reasons == [] then Ok(None)
    else
      var last := reasons[|reasons| - 1];
      match FoldFinish(reasons[..|reasons| - 1])
      case Err(e) => Err(e)
      case Ok(current) => if Conflicts(current, last) then Err(last) else Ok(Some(MergeFinish(current, last)))
  }

  lemma {:induction false} FoldReadsTheSet(reasons: seq<FinishReason>)
    ensures FoldFinish(reasons).Ok? <==> Compatible(Elements(reasons))
    ensures FoldFinish(reasons).Ok? ==> FoldFinish(reasons).value == Merged(Elements(reasons))
  {
    if reasons != [] {
      var before, last := reasons[..|reasons| - 1], reasons[|reasons| - 1];
      FoldReadsTheSet(before);
      assert reasons == before + [last];
      assert Elements(reasons) == Elements(before) + {last};
      if Compatible(Elements(before)) {
        MergeStep(Elements(before), last);
      } else if Compatible(Elements(reasons)) {
        SubsetsStayCompatible(Elements(before), Elements(reasons));
      }
    }
  }

  lemma MergeIgnoresOrderAndRepetition(a: seq<FinishReason>, b: seq<FinishReason>)
    requires Elements(a) == Elements(b)
    ensures FoldFinish(a).Ok? == FoldFinish(b).Ok?
    ensures FoldFinish(a).Ok? ==> FoldFinish(a) == FoldFinish(b)
    ensures FoldFinish(a).Ok? <==> |Elements(a)| <= 1 || Elements(a) == {Stop, ToolCalls}
    ensures FoldFinish(a).Ok? ==> (FoldFinish(a).value == Some(ToolCalls) <==> ToolCalls in a)
  {
    FoldReadsTheSet(a);
    FoldReadsTheSet(b);
    CompatibleMeaning(Elements(a));
  }

  // Two streams whose choices are the same up to order and repetition end with the same verdicts.
  lemma EndVerdictIgnoresOrder(a: seq<Choice>, b: seq<Choice>, index: int, allowed: bool)
    requires Elements(a) == Elements(b)
    ensures Indexes(a) == Indexes(b)
    ensures ChoiceVerdict(index, Summary(a, index), allowed) == ChoiceVerdict(index, Summary(b, index), allowed)
  {
    OrderIrrelevant(a, b, index);
    assert forall x :: x in a <==> x in Elements(a);
    assert forall x :: x in b <==> x in Elements(b);
  }

  // A choice becomes tool_calls exactly when that reason was given or a stop came with a tool delta,
  // and it is then accepted exactly when a tool delta was seen.
  lemma PromotionDependsOnToolDelta(cs: seq<Choice>, index: int, allowed: bool)
    requires Compatible(ReasonsSeen(cs, index)) && ReasonsSeen(cs, index) != {}
    ensures var reasons := ReasonsSeen(cs, index);
            var verdict := ChoiceVerdict(index, Summary(cs, index), allowed);
            && (ToolCalls in reasons || (Stop in reasons && ToolSeen(cs, index)) <==>
                verdict == Ok(ToolCalls) || verdict == Err(ToolCallsWithoutTool(index)))
            && (verdict == Ok(ToolCalls) ==> ToolSeen(cs, index))
            && (verdict == Err(StopWithoutOutput(index)) <==> reasons == {Stop} && !OutputSeen(cs, index) && !allowed)
  {
    CompatibleMeaning(ReasonsSeen(cs, index));
    if ToolSeen(cs, index) {
      var c :| c in cs && c.index == index && |c.delta.toolCalls| > 0;
      assert DeltaHasOutput(c.delta);
    }
    var reasons := ReasonsSeen(cs, index);
    if Merged(reasons) == Some(Stop) { assert forall r | r in reasons :: r == Stop; assert reasons == {Stop}; }
  }

  // --- Deadlines over a whole accepted run -----------------------------------------------------------

  lemma AcceptedRunsMeetDeadlines(run: Run, p: Policy)
    requires Accepted(run) && run.policy == Some(p)
    // the first useful frame, and every event up to it, meets the first-output deadline
    ensures forall k | 0 <= k <= |run.frames| && NoUsefulBefore(run, k) ::
              WhenOf(run, k).arrivedAt <= run.startedAt + p.firstOutputMs
    // from a useful frame, every event up to and including the next useful frame arrives within the
    // idle budget, however many metadata or usage frames come between
    ensures Budget(p.idleMs).Some? ==>
              forall j: nat, k: nat | k <= |run.frames| && LastUseful(run, j, k) ::
                WhenOf(run, k).arrivedAt - run.frames[j].when.arrivedAt <= p.idleMs.value
    // a reasoning stretch is measured from its first frame and is not extended by more reasoning
    ensures Budget(p.reasoningOnlyMs).Some? ==>
              forall r: nat, k: nat | k <= |run.frames| && OpensReasoning(run, r, k) ::
                WhenOf(run, k).arrivedAt - run.frames[r].when.arrivedAt <= p.reasoningOnlyMs.value
  {
    hide EndAccepted, AdapterTerminalsAgree, ReasonsAgree;
    forall k | 0 <= k <= |run.frames|
      ensures OnTime(run, k)
    {
      if k < |run.frames| { assert FrameAccepted(run, k); }
    }
    forall k | 0 <= k <= |run.frames| && NoUsefulBefore(run, k)
      ensures WhenOf(run, k).arrivedAt <= run.startedAt + p.firstOutputMs
    {
      assert OnTime(run, k);
    }
    forall j: nat, k: nat | Budget(p.idleMs).Some? && k <= |run.frames| && LastUseful(run, j, k)
      ensures WhenOf(run, k).arrivedAt - run.frames[j].when.arrivedAt <= p.idleMs.value
    {
      assert OnTime(run, k);
    }
    forall r: nat, k: nat | Budget(p.reasoningOnlyMs).Some? && k <= |run.frames| && OpensReasoning(run, r, k)
      ensures WhenOf(run, k).arrivedAt - run.frames[r].when.arrivedAt <= p.reasoningOnlyMs.value
    {
      assert OnTime(run, k);
    }
  }

  ghost function UsefulFrames(run: Run, k: nat): nat
    requires k <= |run.frames|
  {
    if k == 0 then 0 else UsefulFrames(run, k - 1) + if IsUseful(SemanticAt(run, k - 1)) then 1 else 0
  }

  // The idle budget alone bounds how long an accepted stream can last.
  lemma AcceptedRunsAreBounded(run: Run, p: Policy)
    requires Accepted(run) && run.policy == Some(p) && Budget(p.idleMs).Some?
    ensures run.ending.when.arrivedAt <=
              run.startedAt + p.firstOutputMs + UsefulFrames(run, |run.frames|) * p.idleMs.value
  {
    hide EndAccepted, AdapterTerminalsAgree, ReasonsAgree;
    forall k | 0 <= k <= |run.frames|
      ensures OnTime(run, k)
    {
      if k < |run.frames| { assert FrameAccepted(run, k); }
    }
    PrefixIsBounded(run, p, |run.frames|);
  }

  lemma FirstBound(run: Run, p: Policy, k: nat)
    requires k <= |run.frames| && run.policy == Some(p) && OnTime(run, k) && NoUsefulBefore(run, k)
    ensures WhenOf(run, k).arrivedAt <= run.startedAt + p.firstOutputMs
  {
    hide ReasoningMet, IdleMet;
  }

  lemma IdleBound(run: Run, p: Policy, j: nat, k: nat)
    requires k <= |run.frames| && run.policy == Some(p) && Budget(p.idleMs).Some?
    requires OnTime(run, k) && LastUseful(run, j, k)
    ensures WhenOf(run, k).arrivedAt <= WhenOf(run, j).arrivedAt + p.idleMs.value
  {
    hide ReasoningMet, FirstOutputMet;
  }

  lemma {:induction false} PrefixIsBounded(run: Run, p: Policy, k: nat)
    requires k <= |run.frames| && run.policy == Some(p) && Budget(p.idleMs).Some?
    requires forall i | 0 <= i <= |run.frames| :: OnTime(run, i)
    ensures WhenOf(run, k).arrivedAt <= run.startedAt + p.firstOutputMs + UsefulFrames(run, k) * p.idleMs.value
  {
    hide UsefulFrames, OnTime, WhenOf, NoUsefulBefore;
    var j := PreviousUseful(run, k);
    if j == k {
      NoneUseful(run, k);
      FirstBound(run, p, k);
    } else {
      IdleBound(run, p, j, k);
      PrefixIsBounded(run, p, j);
      UsefulAfter(run, j, k);
      OneMoreBudget(UsefulFrames(run, j), p.idleMs.value);
    }
  }

  lemma OneMoreBudget(n: nat, budget: int)
    ensures (n + 1) * budget == n * budget + budget
  {
  }

  lemma {:induction false} PreviousUseful(run: Run, k: nat) returns (j: nat)
    requires k <= |run.frames|
    ensures j <= k && if j == k then NoUsefulBefore(run, k) else LastUseful(run, j, k)
  {
    if k == 0 {
      j := 0;
    } else if IsUseful(SemanticAt(run, k - 1)) {
      j := k - 1;
    } else {
      j := PreviousUseful(run, k - 1);
      if j == k - 1 { j := k; }
    }
  }

  lemma {:induction false} NoneUseful(run: Run, k: nat)
    requires k <= |run.frames| && NoUsefulBefore(run, k)
    ensures UsefulFrames(run, k) == 0
  {
    if k > 0 { NoneUseful(run, k - 1); }
  }

  lemma {:induction false} UsefulAfter(run: Run, j: nat, k: nat)
    requires k <= |run.frames| && LastUseful(run, j, k)
    ensures UsefulFrames(run, k) == UsefulFrames(run, j) + 1
  {
    if k > j + 1 { UsefulAfter(run, j, k - 1); }
  }

  // --- Agreement with the non-streaming path -----------------------------------------------------------

  datatype Message = Message(content: string, reasoning: string, refusal: string, toolCalls: seq<ToolCall>, audio: Audio)

  datatype ResponseChoice = ResponseChoice(index: int, finishReason: Option<FinishReason>, message: Message)

  datatype Response = Response(choices: seq<ResponseChoice>, usage: Option<Usage>, terminal: Option<Terminal>)

  datatype ResponseError = NoChoices | OmittedReason | CompletedWithoutOutput | DeclaredToolCallsWithoutCall

  predicate MessageHasOutput(m: Message) {
    |m.content| > 0 || |m.reasoning| > 0 || |m.refusal| > 0 || |m.toolCalls| > 0 || m.audio.AudioObject?
  }

  function ChoiceProblem(c: ResponseChoice): Option<ResponseError> {
    if !MessageHasOutput(c.message) && c.finishReason == Some(Stop) then Some(CompletedWithoutOutput)
    else if c.finishReason == Some(ToolCalls) && |c.message.toolCalls| == 0 then Some(DeclaredToolCallsWithoutCall)
    else None
  }

  function FirstProblem(cs: seq<ResponseChoice>): Option<ResponseError> {
    if cs == [] then None
    else if ChoiceProblem(cs[0]).Some? then ChoiceProblem(cs[0]) else FirstProblem(cs[1..])
  }

  function TerminalForChatResponse(response: Response): Result<CanonicalTerminal, ResponseError> {
    if response.choices == [] then Err(NoChoices)
    else if exists c | c in response.choices :: c.finishReason.None? then Err(OmittedReason)
    else if FirstProblem(response.choices).Some? then Err(FirstProblem(response.choices).value)
    else Ok(TerminalForReasons(
      seq(|response.choices|, i requires 0 <= i < |response.choices| => response.choices[i].finishReason.value),
      response.terminal, response.usage))
  }

  // The message one choice's deltas add up to.
  function Collect(cs: seq<Choice>, index: int): Message {
    if cs == [] then Message("", "", "", [], NullAudio)
    else
      var before := Collect(cs[..|cs| - 1], index);
      var last := cs[|cs| - 1];
      if last.index != index then before
      else Message(before.content + last.delta.content, before.reasoning + last.delta.reasoning,
                   before.refusal + last.delta.refusal, before.toolCalls + last.delta.toolCalls,
                   if last.delta.audio.AudioObject? then last.delta.audio else before.audio)
  }

  // The single response a stream amounts to: one choice per index, in order, with promoted reasons.
  ghost predicate Assembles(chunks: seq<Chunk>, response: Response) {
    var cs := Choices(chunks);
    StrictlyAscending(ResponseIndexes(response.choices)) &&
    Elements(ResponseIndexes(response.choices)) == Indexes(cs) &&
    response.usage == LastUsage(chunks) && response.terminal == AdapterTerminal(chunks) &&
    forall i | 0 <= i < |response.choices| ::
      var c := response.choices[i];
      var s := Summary(cs, c.index);
      c.message == Collect(cs, c.index) &&
      c.finishReason == if s.finish.None? then None else Some(Promote(s.finish.value, s.hasTool))
  }

  function ResponseIndexes(cs: seq<ResponseChoice>): (r: seq<int>)
    ensures |r| == |cs|
    ensures forall i | 0 <= i < |cs| :: r[i] == cs[i].index
  {
    seq(|cs|, i requires 0 <= i < |cs| => cs[i].index)
  }

  // Output that a JSON message would show: a null audio delta does not count.
  ghost predicate ShownOutput(cs: seq<Choice>, index: int) {
    exists c :: c in cs && c.index == index && DeltaHasOutput(c.delta.(audio := ShownAudio(c.delta.audio)))
  }

  function ShownAudio(a: Audio): Audio {
    if a.AudioObject? then a else NoAudio
  }

  lemma {:induction false} CollectShowsOutput(cs: seq<Choice>, index: int)
    ensures MessageHasOutput(Collect(cs, index)) <==> ShownOutput(cs, index)
    ensures |Collect(cs, index).toolCalls| > 0 <==> ToolSeen(cs, index)
  {
    if cs != [] {
      var before, last := cs[..|cs| - 1], cs[|cs| - 1];
      assert cs == before + [last];
      CollectShowsOutput(before, index);
      assert forall x :: x in cs <==> x in before || x == last;
      assert MessageHasOutput(Collect(cs, index)) <==>
        MessageHasOutput(Collect(before, index)) ||
        (last.index == index && DeltaHasOutput(last.delta.(audio := ShownAudio(last.delta.audio))));
      assert |Collect(cs, index).toolCalls| > 0 <==>
        |Collect(before, index).toolCalls| > 0 || (last.index == index && |last.delta.toolCalls| > 0);
    }
  }

  // The stream path's verdict on the same material, ending included.
  ghost predicate StreamEndAccepts(chunks: seq<Chunk>, allowed: bool) {
    var cs := Choices(chunks);
    Indexes(cs) != {} && forall index | index in Indexes(cs) :: ChoiceVerdict(index, Summary(cs, index), allowed).Ok?
  }

  // A stop that is only accepted because the stream path is more lenient: empty output was allowed,
  // or the only output was a null audio delta.
  ghost predicate LenientStop(chunks: seq<Chunk>, index: int) {
    var cs := Choices(chunks);
    var s := Summary(cs, index);
    s.finish == Some(Stop) && !s.hasTool && !ShownOutput(cs, index)
  }

  lemma ChoiceAgrees(chunks: seq<Chunk>, c: ResponseChoice, allowed: bool)
    requires var cs := Choices(chunks);
             var s := Summary(cs, c.index);
             && c.message == Collect(cs, c.index)
             && c.finishReason == if s.finish.None? then None else Some(Promote(s.finish.value, s.hasTool))
    ensures var verdict := ChoiceVerdict(c.index, Summary(Choices(chunks), c.index), allowed);
            && (c.finishReason.Some? && ChoiceProblem(c).None? <==> verdict.Ok? && !LenientStop(chunks, c.index))
            && (verdict.Ok? ==> c.finishReason == Some(verdict.value))
  {
    var cs := Choices(chunks);
    CollectShowsOutput(cs, c.index);
    if x :| x in cs && x.index == c.index && DeltaHasOutput(x.delta.(audio := ShownAudio(x.delta.audio))) {
      assert DeltaHasOutput(x.delta);
    }
  }

  lemma {:induction false} FirstProblemNone(cs: seq<ResponseChoice>)
    ensures FirstProblem(cs).None? <==> forall c | c in cs :: ChoiceProblem(c).None?
  {
    if cs != [] {
      FirstProblemNone(cs[1..]);
      assert forall c :: c in cs <==> c == cs[0] || c in cs[1..];
    }
  }

  lemma EveryIndexListed(cs: seq<ResponseChoice>, keys: set<int>)
    requires Elements(ResponseIndexes(cs)) == keys
    ensures forall k :: k in keys <==> exists c :: c in cs && c.index == k
  {
    forall k
      ensures k in keys <==> exists c :: c in cs && c.index == k
    {
      if k in keys {
        assert k in Elements(ResponseIndexes(cs));
        var n :| 0 <= n < |cs| && ResponseIndexes(cs)[n] == k;
        assert cs[n] in cs;
      }
      if c :| c in cs && c.index == k {
        var n :| 0 <= n < |cs| && cs[n] == c;
        assert ResponseIndexes(cs)[n] == k;
      }
    }
  }

  // The JSON path accepts the assembled response exactly when the stream path accepts the stream and
  // no choice relies on the stream path's extra lenience.
  lemma JsonAcceptsWhatStreamsAccept(chunks: seq<Chunk>, response: Response, allowed: bool)
    requires Assembles(chunks, response)
    ensures TerminalForChatResponse(response).Ok? <==>
            StreamEndAccepts(chunks, allowed) &&
            forall index | index in Indexes(Choices(chunks)) :: !LenientStop(chunks, index)
  {
    hide LenientStop, ChoiceVerdict, ChoiceProblem, Summary;
    var cs := Choices(chunks);
    EveryIndexListed(response.choices, Indexes(cs));
    FirstProblemNone(response.choices);
    forall c | c in response.choices
      ensures c.finishReason.Some? && ChoiceProblem(c).None? <==>
              ChoiceVerdict(c.index, Summary(cs, c.index), allowed).Ok? && !LenientStop(chunks, c.index)
    {
      var i :| 0 <= i < |response.choices| && response.choices[i] == c;
      ChoiceAgrees(chunks, c, allowed);
    }
    if response.choices != [] {
      assert response.choices[0] in response.choices;
      assert response.choices[0].index in Indexes(cs);
    }
  }

  // The lenience has exactly two sources.
  lemma LenienceExplained(chunks: seq<Chunk>, index: int)
    requires ChoiceVerdict(index, Summary(Choices(chunks), index), false).Ok? && LenientStop(chunks, index)
    ensures exists c :: c in Choices(chunks) && c.index == index && c.delta.audio.NullAudio?
  {
    var c :| c in Choices(chunks) && c.index == index && DeltaHasOutput(c.delta);
    assert c.delta.audio.NullAudio? || c.delta.(audio := ShownAudio(c.delta.audio)) == c.delta;
  }

  // Without the empty-output allowance and without null audio, the two paths accept the same streams.
  lemma StreamAndJsonAgree(run: Run, response: Response)
    requires Assembles(ChunksOf(run.frames), response)
    requires !EmptyOutputAllowed(Gathered(run.context, ChunksOf(run.frames)))
    requires forall c | c in Choices(ChunksOf(run.frames)) :: !c.delta.audio.NullAudio?
    ensures TerminalForChatResponse(response).Ok? <==> EndAccepted(run)
  {
    var chunks := ChunksOf(run.frames);
    JsonAcceptsWhatStreamsAccept(chunks, response, false);
    forall index | index in Indexes(Choices(chunks)) && ChoiceVerdict(index, Summary(Choices(chunks), index), false).Ok?
      ensures !LenientStop(chunks, index)
    {
      if LenientStop(chunks, index) { LenienceExplained(chunks, index); }
    }
  }

  // Where the JSON path accepts, with or without those two, it reports the outcome, reason and usage of the
  // stream path.
  lemma SameTerminal(run: Run, response: Response, t: Chunk)
    requires Assembles(ChunksOf(run.frames), response) && IsTerminalChunk(run, t)
    requires TerminalForChatResponse(response).Ok?
    ensures t.choices != [] && TerminalForChatResponse(response).value ==
              TerminalForReasons(FinishReasons(t.choices), AdapterTerminal(ChunksOf(run.frames)),
                                 LastUsage(ChunksOf(run.frames)))
  {
    FirstProblemNone(response.choices);
    SameReasons(run, response, t);
  }

  lemma SameReasons(run: Run, response: Response, t: Chunk)
    requires Assembles(ChunksOf(run.frames), response) && IsTerminalChunk(run, t)
    requires forall c | c in response.choices :: c.finishReason.Some?
    requires response.choices != []
    ensures t.choices != []
    ensures seq(|response.choices|, i requires 0 <= i < |response.choices| => response.choices[i].finishReason.value)
            == FinishReasons(t.choices)
  {
    var chunks := ChunksOf(run.frames);
    var a, b := ResponseIndexes(response.choices), ChoiceIndexes(t.choices);
    AscendingIsUnique(a, b);
    forall i | 0 <= i < |response.choices|
      ensures response.choices[i].finishReason == t.choices[i].finishReason
    {
      assert a[i] == b[i];
      ChoiceAgrees(chunks, response.choices[i], EmptyOutputAllowed(Gathered(run.context, chunks)));
    }
  }

  // Without an adapter terminal the outcome is read off the reasons.
  lemma OutcomeFromReasons(reasons: seq<FinishReason>, usage: Option<Usage>)
    requires reasons != []
    ensures var outcome := TerminalForReasons(reasons, None, usage).outcome;
            && (outcome == Incomplete <==> Length in reasons)
            && (outcome == Blocked <==> forall r | r in reasons :: r == ContentFilter)
    ensures var reason := TerminalForReasons(reasons, None, usage).reason;
            && (reason == ForStop <==> forall r | r in reasons :: r == Stop)
            && (reason == ForLength <==> forall r | r in reasons :: r == Length)
            && (reason == ForToolCalls <==> forall r | r in reasons :: r == ToolCalls)
            && (reason == ForContentFilter <==> forall r | r in reasons :: r == ContentFilter)
            && (reason == ForOther <==> exists r :: r in reasons && r != reasons[0])
    ensures TerminalForReasons(reasons, None, usage).usage == usage
  {
    SingleReason(reasons);
    assert reasons[0] in reasons;
  }

  lemma SingleReason(reasons: seq<FinishReason>)
    requires reasons != []
    ensures |Elements(reasons)| == 1 <==> forall r | r in reasons :: r == reasons[0]
  {
    assert reasons[0] in Elements(reasons);
    assert forall r :: r in reasons <==> r in Elements(reasons);
    if forall r | r in reasons :: r == reasons[0] {
      assert Elements(reasons) == {reasons[0]};
    } else {
      var r :| r in reasons && r != reasons[0];
      SubsetSize({r, reasons[0]}, Elements(reasons));
    }
  }

  // Null audio is output for the stream path and no output for the JSON path.
  lemma NullAudioSeparatesThePaths(run: Run, response: Response)
    requires var c := Choice(0, EMPTY_DELTA.(audio := NullAudio), Some(Stop), "");
             run == Run(0, None, None, [Frame(When(0, 0), Chunk("r", 1, "m", [c], None, None))], Ending(When(1, 1), None))
    requires response == Response([ResponseChoice(0, Some(Stop), Message("", "", "", [], NullAudio))], None, None)
    ensures EndAccepted(run) && Assembles(ChunksOf(run.frames), response)
    ensures TerminalForChatResponse(response) == Err(CompletedWithoutOutput)
  {
    var c := Choice(0, EMPTY_DELTA.(audio := NullAudio), Some(Stop), "");
    var chunks := ChunksOf(run.frames);
    assert chunks[..0] == [] && Choices(chunks) == [c] by { assert chunks == [run.frames[0].chunk]; }
    NullAudioSummary(c);
    assert [c][..0] == [];
    assert ResponseIndexes(response.choices) == [0];
    assert response.choices[0].finishReason.Some?;
  }

  lemma NullAudioSummary(c: Choice)
    requires c == Choice(0, EMPTY_DELTA.(audio := NullAudio), Some(Stop), "")
    ensures Indexes([c]) == {0} && Summary([c], 0) == ChoiceState(Some(Stop), true, false)
  {
    assert c in [c];
    assert ReasonsSeen([c], 0) == {Stop};
  }
}
