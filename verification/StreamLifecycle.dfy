// The stream observer: a loop over timed chunks that withholds provider finish reasons, enforces
// three deadlines and ends a good stream with one synthesised terminal chunk.
module StreamLifecycle {
  import opened Prelude
  import opened StreamModel

  datatype Policy = Policy(firstOutputMs: int, idleMs: Option<int>, reasoningOnlyMs: Option<int>)

  // When the observer asks for the next item and when its wait for that item resumes. The statements that
  // run between two waits read one clock value, that second one. A clock that runs backwards is allowed.
  datatype When = When(polledAt: int, arrivedAt: int)

  datatype Frame = Frame(when: When, chunk: Chunk)

  datatype Ending = Ending(when: When, failure: Option<string>)

  datatype Run = Run(startedAt: int, policy: Option<Policy>, context: Option<Diagnostics>,
                     frames: seq<Frame>, ending: Ending)

  datatype Phase = FirstOutput | Idle | ReasoningOnly

  datatype StreamError =
    | Timeout(phase: Phase)
    | UpstreamFailed(error: string)
    | ConflictingAdapterTerminals
    | ConflictingReasons(index: int)
    | NoSemanticTerminal
    | MissingReason(index: int)
    | StopWithoutOutput(index: int)
    | ToolCallsWithoutTool(index: int)

  function ChunksOf(frames: seq<Frame>): (r: seq<Chunk>)
    ensures |r| == |frames|
    ensures forall i | 0 <= i < |frames| :: r[i] == frames[i].chunk
  {
    seq(|frames|, i requires 0 <= i < |frames| => frames[i].chunk)
  }

  function WhenOf(run: Run, k: nat): When
    requires k <= |run.frames|
  {
    if k < |run.frames| then run.frames[k].when else run.ending.when
  }

  // --- Deadlines, read off the whole run --------------------------------------------------

  predicate IsUseful(s: Semantic) {
    s != Metadata && s != UsageOnly
  }

  predicate IsVisible(s: Semantic) {
    s == Content || s == Tool
  }

  function SemanticAt(run: Run, k: nat): Semantic
    requires k < |run.frames|
  {
    ChunkSemantic(run.frames[k].chunk)
  }

  predicate Meets(when: When, deadline: int) {
    when.polledAt < deadline && when.arrivedAt <= deadline
  }

  // A budget of zero counts as no budget.
  function Budget(ms: Option<int>): Option<int> {
    if ms == Some(0) then None else ms
  }

  ghost predicate NoUsefulBefore(run: Run, k: nat)
    requires k <= |run.frames|
  {
    forall i | 0 <= i < k :: !IsUseful(SemanticAt(run, i))
  }

  ghost predicate LastUseful(run: Run, j: nat, k: nat)
    requires k <= |run.frames|
  {
    j < k && IsUseful(SemanticAt(run, j)) && forall i | j < i < k :: !IsUseful(SemanticAt(run, i))
  }

  // Frame r is the first reasoning frame since the last content or tool frame, and no content or
  // tool frame separates it from k.
  ghost predicate OpensReasoning(run: Run, r: nat, k: nat)
    requires k <= |run.frames|
  {
    r < k && SemanticAt(run, r) == Reasoning &&
    (forall i | r < i < k :: !IsVisible(SemanticAt(run, i))) &&
    (forall q | 0 <= q < r && SemanticAt(run, q) == Reasoning :: exists i :: q < i < r && IsVisible(SemanticAt(run, i)))
  }

  ghost predicate FirstOutputMet(run: Run, k: nat)
    requires k <= |run.frames|
  {
    run.policy.Some? && NoUsefulBefore(run, k) ==>
      Meets(WhenOf(run, k), run.startedAt + run.policy.value.firstOutputMs)
  }

  ghost predicate IdleMet(run: Run, k: nat)
    requires k <= |run.frames|
  {
    run.policy.Some? && Budget(run.policy.value.idleMs).Some? ==>
      forall j: nat | LastUseful(run, j, k) ::
        Meets(WhenOf(run, k), run.frames[j].when.arrivedAt + run.policy.value.idleMs.value)
  }

  ghost predicate ReasoningMet(run: Run, k: nat)
    requires k <= |run.frames|
  {
    run.policy.Some? && Budget(run.policy.value.reasoningOnlyMs).Some? ==>
      forall r: nat | OpensReasoning(run, r, k) ::
        Meets(WhenOf(run, k), run.frames[r].when.arrivedAt + run.policy.value.reasoningOnlyMs.value)
  }

  ghost predicate OnTime(run: Run, k: nat)
    requires k <= |run.frames|
  {
    FirstOutputMet(run, k) && IdleMet(run, k) && ReasoningMet(run, k)
  }

  // --- Acceptance of one frame and of the end of the stream -------------------------------

  ghost predicate AdapterTerminalsAgree(chunks: seq<Chunk>) {
    forall i, j | 0 <= i < |chunks| && 0 <= j < |chunks| && HasTerminal(chunks[i]) && HasTerminal(chunks[j]) ::
      chunks[i].diagnostics.value.terminal == chunks[j].diagnostics.value.terminal
  }

  predicate HasTerminal(chunk: Chunk) {
    chunk.diagnostics.Some? && chunk.diagnostics.value.terminal.Some?
  }

  ghost predicate ReasonsAgree(chunks: seq<Chunk>) {
    forall index :: Compatible(ReasonsSeen(Choices(chunks), index))
  }

  ghost predicate FrameAccepted(run: Run, k: nat)
    requires k < |run.frames|
  {
    OnTime(run, k) &&
    AdapterTerminalsAgree(ChunksOf(run.frames)[..k + 1]) &&
    ReasonsAgree(ChunksOf(run.frames)[..k + 1])
  }

  // The adapter terminal, usage and diagnostics a chunk sequence leaves behind.
  function AdapterTerminal(chunks: seq<Chunk>): Option<Terminal> {
    if chunks == [] then None
    else
      var last := chunks[|chunks| - 1];
      if HasTerminal(last) then last.diagnostics.value.terminal else AdapterTerminal(chunks[..|chunks| - 1])
  }

  function LastUsage(chunks: seq<Chunk>): Option<Usage> {
    if chunks == [] then None
    else
      var last := chunks[|chunks| - 1];
      if last.usage.Some? then last.usage else LastUsage(chunks[..|chunks| - 1])
  }

  const NO_DIAGNOSTICS := Diagnostics(None, None, map[], map[])

  function Absorb(seen: Option<Diagnostics>, chunk: Chunk): Option<Diagnostics> {
    match chunk.diagnostics
    case None => seen
    case Some(d) =>
      var base := if seen.Some? then seen.value else NO_DIAGNOSTICS;
      Some(Diagnostics(
        if d.terminal.Some? then d.terminal else base.terminal,
        if d.terminator.Some? then d.terminator else base.terminator,
        base.fields + d.fields,
        base.metadata + d.metadata))
  }

  function Gathered(context: Option<Diagnostics>, chunks: seq<Chunk>): Option<Diagnostics> {
    if chunks == [] then context
    else Absorb(Gathered(context, chunks[..|chunks| - 1]), chunks[|chunks| - 1])
  }

  predicate EmptyOutputAllowed(diagnostics: Option<Diagnostics>) {
    diagnostics.Some? && "emptyOutputAllowed" in diagnostics.value.metadata &&
    diagnostics.value.metadata["emptyOutputAllowed"] == MetaBool(true)
  }

  // The public reason of one choice, or why it has none.
  function ChoiceVerdict(index: int, state: ChoiceState, emptyAllowed: bool): Result<FinishReason, StreamError> {
    if state.finish.None? then Err(MissingReason(index))
    else
      var finish := Promote(state.finish.value, state.hasTool);
      if !state.hasOutput && finish == Stop && !emptyAllowed then Err(StopWithoutOutput(index))
      else if finish == ToolCalls && !state.hasTool then Err(ToolCallsWithoutTool(index))
      else Ok(finish)
  }

  function ReasonOf(r: FinishReason): Reason {
    match r
    case Stop => ForStop
    case Length => ForLength
    case ToolCalls => ForToolCalls
    case ContentFilter => ForContentFilter
  }

  function TerminalForFinish(r: FinishReason, usage: Option<Usage>): CanonicalTerminal {
    CanonicalTerminal(if r == Length then Incomplete else if r == ContentFilter then Blocked else Completed,
                      ReasonOf(r), usage)
  }

  function TerminalForReasons(reasons: seq<FinishReason>, adapter: Option<Terminal>, usage: Option<Usage>): CanonicalTerminal
    requires reasons != []
  {
    if adapter.Some? then CanonicalTerminal(adapter.value.outcome, adapter.value.reason, usage)
    else if |Elements(reasons)| == 1 then TerminalForFinish(reasons[0], usage)
    else CanonicalTerminal(
           if Length in reasons then Incomplete
           else if forall r | r in reasons :: r == ContentFilter then Blocked
           else Completed,
           ForOther, usage)
  }

  // Every choice of the stream has a public reason.
  ghost predicate EndAccepted(run: Run) {
    var chunks := ChunksOf(run.frames);
    var cs := Choices(chunks);
    Indexes(cs) != {} &&
    forall index | index in Indexes(cs) ::
      ChoiceVerdict(index, Summary(cs, index), EmptyOutputAllowed(Gathered(run.context, chunks))).Ok?
  }

  ghost predicate Accepted(run: Run) {
    (forall k | 0 <= k < |run.frames| :: FrameAccepted(run, k)) &&
    OnTime(run, |run.frames|) && run.ending.failure.None? && EndAccepted(run)
  }

  // The terminal chunk of an accepted run: one choice per index seen, ascending, each with the
  // public reason of that choice.
  ghost predicate IsTerminalChunk(run: Run, t: Chunk) {
    var chunks := ChunksOf(run.frames);
    var cs := Choices(chunks);
    var gathered := Gathered(run.context, chunks);
    chunks != [] &&
    t.id == chunks[|chunks| - 1].id && t.created == chunks[|chunks| - 1].created &&
    t.model == chunks[|chunks| - 1].model && t.usage == None && t.diagnostics == gathered &&
    StrictlyAscending(ChoiceIndexes(t.choices)) && Elements(ChoiceIndexes(t.choices)) == Indexes(cs) &&
    forall i | 0 <= i < |t.choices| ::
      t.choices[i].delta == EMPTY_DELTA && t.choices[i].logprobs == "" && t.choices[i].finishReason.Some? &&
      ChoiceVerdict(t.choices[i].index, Summary(cs, t.choices[i].index), EmptyOutputAllowed(gathered)) ==
        Ok(t.choices[i].finishReason.value)
  }

  function ChoiceIndexes(cs: seq<Choice>): (r: seq<int>)
    ensures |r| == |cs|
    ensures forall i | 0 <= i < |cs| :: r[i] == cs[i].index
  {
    seq(|cs|, i requires 0 <= i < |cs| => cs[i].index)
  }

  function FinishReasons(cs: seq<Choice>): seq<FinishReason>
    requires forall c | c in cs :: c.finishReason.Some?
  {
    seq(|cs|, i requires 0 <= i < |cs| => cs[i].finishReason.value)
  }

  // Why a run was cut short after k frames.
  ghost predicate Explains(run: Run, k: nat, e: StreamError)
    requires k <= |run.frames|
  {
    var chunks := ChunksOf(run.frames);
    match e
    case Timeout(FirstOutput) => !FirstOutputMet(run, k)
    case Timeout(Idle) => !IdleMet(run, k)
    case Timeout(ReasoningOnly) => !ReasoningMet(run, k)
    case UpstreamFailed(error) => k == |chunks| && OnTime(run, k) && run.ending.failure == Some(error)
    case ConflictingAdapterTerminals =>
      k < |chunks| && OnTime(run, k) && !AdapterTerminalsAgree(chunks[..k + 1])
    case ConflictingReasons(index) =>
      k < |chunks| && OnTime(run, k) && AdapterTerminalsAgree(chunks[..k + 1]) &&
      !Compatible(ReasonsSeen(Choices(chunks[..k + 1]), index))
    case _ =>
      k == |chunks| && OnTime(run, k) && run.ending.failure.None? && EndRejects(run, e)
  }

  // At the end of the stream the lowest choice without a public reason is reported.
  ghost predicate EndRejects(run: Run, e: StreamError) {
    var chunks := ChunksOf(run.frames);
    var cs := Choices(chunks);
    var allowed := EmptyOutputAllowed(Gathered(run.context, chunks));
    if Indexes(cs) == {} then e == NoSemanticTerminal
    else exists index | index in Indexes(cs) ::
      ChoiceVerdict(index, Summary(cs, index), allowed) == Err(e) &&
      forall lower | lower in Indexes(cs) && lower < index :: ChoiceVerdict(lower, Summary(cs, lower), allowed).Ok?
  }

  // --- The observation record ---------------------------------------------------------------

  datatype Sighting = Sighting(semantic: Semantic, at: int)

  ghost function Kinds(seen: seq<Sighting>): multiset<Semantic> {
    multiset(seq(|seen|, i requires 0 <= i < |seen| => seen[i].semantic))
  }

  function FirstAt(seen: seq<Sighting>, wanted: set<Semantic>): Option<int> {
    if seen == [] then None
    else
      var before := FirstAt(seen[..|seen| - 1], wanted);
      if before.Some? then before
      else if seen[|seen| - 1].semantic in wanted then Some(seen[|seen| - 1].at) else None
  }

  function MaxGap(seen: seq<Sighting>): int {
    if |seen| <= 1 then 0
    else
      var gap := seen[|seen| - 1].at - seen[|seen| - 2].at;
      var before := MaxGap(seen[..|seen| - 1]);
      if gap > before then gap else before
  }

  // The first time a wanted kind of frame was seen.
  lemma {:induction false} FirstAtIsTheFirst(seen: seq<Sighting>, wanted: set<Semantic>)
    ensures FirstAt(seen, wanted).None? <==> forall i | 0 <= i < |seen| :: seen[i].semantic !in wanted
    ensures FirstAt(seen, wanted).Some? ==>
              exists i :: 0 <= i < |seen| && seen[i].semantic in wanted && FirstAt(seen, wanted).value == seen[i].at &&
                          forall j | 0 <= j < i :: seen[j].semantic !in wanted
    decreases |seen|
  {
    if seen != [] {
      var before := seen[..|seen| - 1];
      FirstAtIsTheFirst(before, wanted);
      if FirstAt(before, wanted).Some? {
        var i :| 0 <= i < |before| && before[i].semantic in wanted && FirstAt(before, wanted).value == before[i].at &&
                 forall j | 0 <= j < i :: before[j].semantic !in wanted;
        assert forall j | 0 <= j <= i :: seen[j] == before[j];
      } else {
        assert forall j | 0 <= j < |before| :: seen[j] == before[j];
      }
    }
  }

  // The largest pause between neighbours, at least zero.
  lemma {:induction false} MaxGapIsTheLargest(seen: seq<Sighting>)
    ensures forall i | 0 <= i < |seen| - 1 :: seen[i + 1].at - seen[i].at <= MaxGap(seen)
    ensures MaxGap(seen) == 0 || exists i :: 0 <= i < |seen| - 1 && MaxGap(seen) == seen[i + 1].at - seen[i].at
    ensures MaxGap(seen) >= 0
    decreases |seen|
  {
    if |seen| > 1 {
      var before := seen[..|seen| - 1];
      MaxGapIsTheLargest(before);
      assert forall i | 0 <= i < |before| :: seen[i] == before[i];
      if MaxGap(seen) == MaxGap(before) && MaxGap(before) != 0 {
        var i :| 0 <= i < |before| - 1 && MaxGap(before) == before[i + 1].at - before[i].at;
        assert MaxGap(seen) == seen[i + 1].at - seen[i].at;
      }
    }
  }

  lemma KindsStep(seen: seq<Sighting>, s: Sighting)
    ensures Kinds(seen + [s]) == Kinds(seen) + multiset{s.semantic}
  {
    var grown := seen + [s];
    assert seq(|grown|, i requires 0 <= i < |grown| => grown[i].semantic)
        == seq(|seen|, i requires 0 <= i < |seen| => seen[i].semantic) + [s.semantic];
  }

  lemma FirstAtStep(seen: seq<Sighting>, s: Sighting, wanted: set<Semantic>)
    ensures FirstAt(seen + [s], wanted) ==
            if FirstAt(seen, wanted).Some? then FirstAt(seen, wanted)
            else if s.semantic in wanted then Some(s.at) else None
  {
    assert (seen + [s])[..|seen|] == seen;
  }

  lemma MaxGapStep(seen: seq<Sighting>, s: Sighting)
    ensures MaxGap(seen + [s]) ==
            if seen == [] then 0
            else if s.at - seen[|seen| - 1].at > MaxGap(seen) then s.at - seen[|seen| - 1].at else MaxGap(seen)
  {
    assert (seen + [s])[..|seen|] == seen;
  }

  const OUTPUT_SEMANTICS := {Reasoning, Content, Tool, Media}

  const SEMANTICS := {Metadata, Reasoning, Content, Tool, Media, UsageOnly}

  class StreamObservation {
    var frames: nat
    // metadataFrames, reasoningFrames, contentFrames, toolFrames, mediaFrames and usageFrames
    var framesBy: map<Semantic, nat>
    var firstEventAt: Option<int>
    var firstReasoningAt: Option<int>
    var firstOutputAt: Option<int>
    var lastEventAt: Option<int>
    var maxInterEventGapMs: int
    var usage: Option<Usage>
    var transportTerminator: Option<Terminator>
    var terminal: Option<CanonicalTerminal>
    var diagnostics: Option<Diagnostics>
    ghost var seen: seq<Sighting>

    // Every counter and timestamp is the one the list of frames seen so far determines.
    ghost predicate Valid()
      reads `seen, `frames, `framesBy
      reads `firstEventAt, `lastEventAt, `firstReasoningAt, `firstOutputAt, `maxInterEventGapMs
    {
      CountsValid() && TimesValid()
    }

    ghost predicate CountsValid()
      reads `seen, `frames, `framesBy
    {
      frames == |seen| && framesBy.Keys == SEMANTICS && forall s | s in framesBy :: framesBy[s] == Kinds(seen)[s]
    }

    ghost predicate TimesValid()
      reads `seen, `firstEventAt, `lastEventAt, `firstReasoningAt, `firstOutputAt, `maxInterEventGapMs
    {
      firstEventAt == (if seen == [] then None else Some(seen[0].at)) &&
      lastEventAt == (if seen == [] then None else Some(seen[|seen| - 1].at)) &&
      firstReasoningAt == FirstAt(seen, {Reasoning}) && firstOutputAt == FirstAt(seen, OUTPUT_SEMANTICS) &&
      maxInterEventGapMs == MaxGap(seen)
    }

    constructor (context: Option<Diagnostics>)
      ensures Valid() && seen == [] && diagnostics == context
      ensures usage == None && transportTerminator == None && terminal == None
    {
      frames := 0;
      framesBy := map s | s in SEMANTICS :: 0;
      firstEventAt, firstReasoningAt, firstOutputAt, lastEventAt := None, None, None, None;
      maxInterEventGapMs := 0;
      usage, transportTerminator, terminal, diagnostics := None, None, None, context;
      seen := [];
    }

    method RecordTimes(semantic: Semantic, now: int)
      requires TimesValid()
      modifies `firstEventAt, `firstReasoningAt, `firstOutputAt, `lastEventAt, `maxInterEventGapMs, `seen
      ensures TimesValid() && seen == old(seen) + [Sighting(semantic, now)]
    {
      ghost var s := Sighting(semantic, now);
      FirstAtStep(seen, s, {Reasoning});
      FirstAtStep(seen, s, OUTPUT_SEMANTICS);
      MaxGapStep(seen, s);
      if firstEventAt.None? { firstEventAt := Some(now); }
      if lastEventAt.Some? {
        var gap := now - lastEventAt.value;
        maxInterEventGapMs := if gap > maxInterEventGapMs then gap else maxInterEventGapMs;
      }
      lastEventAt := Some(now);
      if semantic == Reasoning && firstReasoningAt.None? { firstReasoningAt := Some(now); }
      if semantic in OUTPUT_SEMANTICS && firstOutputAt.None? { firstOutputAt := Some(now); }
      seen := seen + [s];
    }

    method RecordFrame(semantic: Semantic, now: int)
      requires Valid()
      modifies `frames, `framesBy, `firstEventAt, `firstReasoningAt, `firstOutputAt
      modifies `lastEventAt, `maxInterEventGapMs, `seen
      ensures Valid() && seen == old(seen) + [Sighting(semantic, now)]
    {
      KindsStep(seen, Sighting(semantic, now));
      RecordTimes(semantic, now);
      frames := frames + 1;
      framesBy := framesBy[semantic := framesBy[semantic] + 1];
    }
  }

  // --- The loop -------------------------------------------------------------------------------

  function ActiveDeadline(progress: Option<int>, reasoning: Option<int>): Option<int> {
    if reasoning.Some? && (progress.None? || reasoning.value < progress.value) then reasoning else progress
  }

  function ActivePhase(active: Option<int>, reasoning: Option<int>, progressPhase: Phase): Phase {
    if active == reasoning && reasoning.Some? then ReasoningOnly else progressPhase
  }

  // Waiting for the next item loses to the timer when the deadline has passed at the time of
  // asking or passes before the item arrives.
  function NextBefore(when: When, deadline: Option<int>, phase: Phase): Option<StreamError> {
    if deadline.None? then None
    else if deadline.value - when.polledAt <= 0 then Some(Timeout(phase))
    else if when.arrivedAt > deadline.value then Some(Timeout(phase))
    else None
  }

  function After(at: int, ms: Option<int>): Option<int> {
    if Budget(ms).Some? then Some(at + ms.value) else None
  }

  // What the two deadline variables hold before frame k: j is the last useful frame and r the
  // frame that opened the current reasoning stretch, when there are such frames.
  ghost predicate DeadlinesTrack(run: Run, k: nat, progress: Option<int>, phase: Phase, reasoning: Option<int>,
                                 j: Option<nat>, r: Option<nat>)
    requires k <= |run.frames|
  {
    (if j.Some? then LastUseful(run, j.value, k) else NoUsefulBefore(run, k)) &&
    (if r.Some? then OpensReasoning(run, r.value, k) else ReasoningClosed(run, k)) &&
    (match run.policy
     case None => progress == None && reasoning == None
     case Some(p) =>
       (phase == if j.Some? then Idle else FirstOutput) &&
       progress == (if j.Some? then After(run.frames[j.value].when.arrivedAt, p.idleMs)
                    else Some(run.startedAt + p.firstOutputMs)) &&
       reasoning == (if r.Some? then After(run.frames[r.value].when.arrivedAt, p.reasoningOnlyMs) else None))
  }

  // Every reasoning frame before k is followed by a content or tool frame before k.
  ghost predicate ReasoningClosed(run: Run, k: nat)
    requires k <= |run.frames|
  {
    forall q | 0 <= q < k && SemanticAt(run, q) == Reasoning :: exists i :: q < i < k && IsVisible(SemanticAt(run, i))
  }

  lemma OpeningIsUnique(run: Run, r: nat, q: nat, k: nat)
    requires k <= |run.frames|
    requires OpensReasoning(run, r, k) && OpensReasoning(run, q, k)
    ensures r == q
  {
  }

  // The race against the active deadline is decided exactly by the three declared deadlines.
  lemma RaceDecides(run: Run, k: nat, progress: Option<int>, phase: Phase, reasoning: Option<int>,
                    j: Option<nat>, r: Option<nat>)
    requires k <= |run.frames|
    requires DeadlinesTrack(run, k, progress, phase, reasoning, j, r)
    ensures var active := ActiveDeadline(progress, reasoning);
            var lost := NextBefore(WhenOf(run, k), active, ActivePhase(active, reasoning, phase));
            if OnTime(run, k) then lost == None else lost.Some? && Explains(run, k, lost.value)
  {
    var when := WhenOf(run, k);
    assert FirstOutputMet(run, k) && IdleMet(run, k) <==> (progress.Some? ==> Meets(when, progress.value)) by {
      if run.policy.Some? {
        if j.Some? {
          assert LastUseful(run, j.value, k);
          assert forall j': nat | LastUseful(run, j', k) :: j' == j.value;
        }
      }
    }
    assert ReasoningMet(run, k) <==> (reasoning.Some? ==> Meets(when, reasoning.value)) by {
      if run.policy.Some? {
        if r.Some? {
          forall q: nat | OpensReasoning(run, q, k) ensures q == r.value { OpeningIsUnique(run, r.value, q, k); }
        } else {
          assert forall q: nat :: !OpensReasoning(run, q, k);
        }
      }
    }
  }

  method DeadlinesAfter(run: Run, k: nat, progress0: Option<int>, phase0: Phase, reasoning0: Option<int>,
                        ghost j0: Option<nat>, ghost r0: Option<nat>)
    returns (progress: Option<int>, phase: Phase, reasoning: Option<int>, ghost j: Option<nat>, ghost r: Option<nat>)
    requires k < |run.frames|
    requires DeadlinesTrack(run, k, progress0, phase0, reasoning0, j0, r0)
    ensures DeadlinesTrack(run, k + 1, progress, phase, reasoning, j, r)
  {
    var semantic := ChunkSemantic(run.frames[k].chunk);
    var now := run.frames[k].when.arrivedAt;
    progress, phase, reasoning := progress0, phase0, reasoning0;
    j, r := j0, r0;
    if semantic != Metadata && semantic != UsageOnly {
      phase := Idle;
      progress := if run.policy.Some? then After(now, run.policy.value.idleMs) else None;
      j := Some(k);
    }
    if semantic == Reasoning && reasoning == None {
      reasoning := if run.policy.Some? then After(now, run.policy.value.reasoningOnlyMs) else None;
    }
    if semantic == Reasoning && r0.None? { r := Some(k); }
    if semantic == Content || semantic == Tool {
      reasoning := None;
      r := None;
    }
    ReasoningStretchStep(run, k, r0, r);
  }

  lemma ReasoningStretchStep(run: Run, k: nat, r0: Option<nat>, r: Option<nat>)
    requires k < |run.frames|
    requires if r0.Some? then OpensReasoning(run, r0.value, k) else ReasoningClosed(run, k)
    requires r == if IsVisible(SemanticAt(run, k)) then None
                  else if SemanticAt(run, k) == Reasoning && r0.None? then Some(k) else r0
    ensures if r.Some? then OpensReasoning(run, r.value, k + 1) else ReasoningClosed(run, k + 1)
  {
    if r.None? {
      if IsVisible(SemanticAt(run, k)) {
        assert forall q | 0 <= q < k + 1 && SemanticAt(run, q) == Reasoning :: q < k;
      } else {
        assert ReasoningClosed(run, k);
        forall q | 0 <= q < k + 1 && SemanticAt(run, q) == Reasoning
          ensures exists i :: q < i < k + 1 && IsVisible(SemanticAt(run, i))
        {
          var i :| q < i < k && IsVisible(SemanticAt(run, i));
        }
      }
    }
  }

  // The per-choice table holds exactly what the choices processed so far mean.
  ghost predicate Tracks(table: map<int, ChoiceState>, cs: seq<Choice>) {
    table.Keys == Indexes(cs) &&
    (forall index | index in table :: table[index] == Summary(cs, index)) &&
    forall index :: Compatible(ReasonsSeen(cs, index))
  }

  // One turn of the inner loop on a choice that does not conflict.
  predicate FollowsChoice(state: ChoiceState, c: Choice, next: ChoiceState) {
    next.hasTool == (state.hasTool || |c.delta.toolCalls| > 0) &&
    next.hasOutput == (state.hasOutput || DeltaHasOutput(c.delta)) &&
    if c.finishReason.None? then next.finish == state.finish
    else !Conflicts(state.finish, c.finishReason.value) &&
         next.finish == Some(MergeFinish(state.finish, c.finishReason.value))
  }

  lemma TracksStep(table: map<int, ChoiceState>, cs: seq<Choice>, c: Choice, next: ChoiceState)
    requires Tracks(table, cs)
    requires FollowsChoice(if c.index in table then table[c.index] else FRESH_CHOICE, c, next)
    ensures Tracks(table[c.index := next], cs + [c])
  {
    var grown := table[c.index := next];
    forall index
      ensures Compatible(ReasonsSeen(cs + [c], index))
      ensures index in Indexes(cs + [c]) <==> index in grown
      ensures index in grown ==> grown[index] == Summary(cs + [c], index)
    {
      ChoiceStep(table, cs, c, next, index);
    }
  }

  lemma ChoiceStep(table: map<int, ChoiceState>, cs: seq<Choice>, c: Choice, next: ChoiceState, index: int)
    requires Tracks(table, cs)
    requires FollowsChoice(if c.index in table then table[c.index] else FRESH_CHOICE, c, next)
    ensures Compatible(ReasonsSeen(cs + [c], index))
    ensures index in Indexes(cs + [c]) <==> index == c.index || index in table
    ensures Summary(cs + [c], index) == if index == c.index then next else Summary(cs, index)
  {
    SummaryStep(cs, c, index);
    assert Compatible(ReasonsSeen(cs, index));
    if index == c.index {
      if index !in table { UnseenChoice(cs, index); }
      if c.finishReason.Some? { MergeStep(ReasonsSeen(cs, index), c.finishReason.value); }
    }
  }

  lemma UnseenChoice(cs: seq<Choice>, index: int)
    requires index !in Indexes(cs)
    ensures Summary(cs, index) == FRESH_CHOICE && ReasonsSeen(cs, index) == {}
  {
    assert forall c | c in cs :: c.index in Indexes(cs);
  }

  method MergeChoices(table0: map<int, ChoiceState>, choices: seq<Choice>, ghost before: seq<Choice>)
    returns (table: map<int, ChoiceState>, error: Option<StreamError>)
    requires Tracks(table0, before)
    ensures error.None? ==> Tracks(table, before + choices)
    ensures error.Some? ==> error.value.ConflictingReasons? &&
                            !Compatible(ReasonsSeen(before + choices, error.value.index))
  {
    table, error := table0, None;
    assert before + choices[..0] == before;
    for i := 0 to |choices|
      invariant error.None? && Tracks(table, before + choices[..i])
    {
      var choice := choices[i];
      ghost var seen := before + choices[..i];
      var state := if choice.index in table then table[choice.index] else FRESH_CHOICE;
      assert state == Summary(seen, choice.index) by {
        if choice.index !in table { UnseenChoice(seen, choice.index); }
      }
      var hasTool := |choice.delta.toolCalls| > 0;
      var hasOutput := hasTool || |choice.delta.content| > 0 || |choice.delta.reasoning| > 0 ||
                       |choice.delta.refusal| > 0 || choice.delta.audio != NoAudio;
      var next := ChoiceState(state.finish, state.hasOutput || hasOutput, state.hasTool || hasTool);
      if choice.finishReason.Some? {
        if Conflicts(state.finish, choice.finishReason.value) {
          assert !Compatible(ReasonsSeen(before + choices, choice.index)) by {
            ConflictPersists(seen, choice, before + choices, state, i, before, choices);
          }
          return table, Some(ConflictingReasons(choice.index));
        }
        next := next.(finish := Some(MergeFinish(state.finish, choice.finishReason.value)));
      }
      TracksStep(table, seen, choice, next);
      assert before + choices[..i + 1] == seen + [choice];
      table := table[choice.index := next];
    }
    assert choices[..|choices|] == choices;
  }

  lemma ConflictPersists(seen: seq<Choice>, c: Choice, all: seq<Choice>, state: ChoiceState, i: nat,
                         before: seq<Choice>, choices: seq<Choice>)
    requires i < |choices| && choices[i] == c && seen == before + choices[..i] && all == before + choices
    requires Compatible(ReasonsSeen(seen, c.index)) && state.finish == Merged(ReasonsSeen(seen, c.index))
    requires c.finishReason.Some? && Conflicts(state.finish, c.finishReason.value)
    ensures !Compatible(ReasonsSeen(all, c.index))
  {
    SummaryStep(seen, c, c.index);
    MergeStep(ReasonsSeen(seen, c.index), c.finishReason.value);
    assert all == (seen + [c]) + choices[i + 1..];
    MoreChoicesMoreReasons(seen + [c], choices[i + 1..], c.index);
    if Compatible(ReasonsSeen(all, c.index)) {
      SubsetsStayCompatible(ReasonsSeen(seen + [c], c.index), ReasonsSeen(all, c.index));
    }
  }

  lemma AdapterStep(chunks: seq<Chunk>, k: nat)
    requires k < |chunks| && AdapterTerminalsAgree(chunks[..k])
    ensures AdapterTerminalsAgree(chunks[..k + 1]) <==>
            !(AdapterTerminal(chunks[..k]).Some? && HasTerminal(chunks[k]) &&
              AdapterTerminal(chunks[..k]) != chunks[k].diagnostics.value.terminal)
    ensures AdapterTerminal(chunks[..k + 1]) ==
            if HasTerminal(chunks[k]) then chunks[k].diagnostics.value.terminal else AdapterTerminal(chunks[..k])
  {
    var before, grown := chunks[..k], chunks[..k + 1];
    assert grown[..k] == before;
    AdapterTerminalIsCommon(before);
    assert forall i | 0 <= i < k :: grown[i] == before[i];
    if AdapterTerminal(before).Some? && HasTerminal(chunks[k]) {
      var i :| 0 <= i < k && HasTerminal(before[i]);
      assert HasTerminal(grown[i]) && HasTerminal(grown[k]);
    }
  }

  lemma {:induction false} AdapterTerminalIsCommon(chunks: seq<Chunk>)
    requires AdapterTerminalsAgree(chunks)
    ensures AdapterTerminal(chunks).None? <==> forall i | 0 <= i < |chunks| :: !HasTerminal(chunks[i])
    ensures forall i | 0 <= i < |chunks| && HasTerminal(chunks[i]) ::
              AdapterTerminal(chunks) == chunks[i].diagnostics.value.terminal
  {
    if chunks != [] {
      AdapterTerminalIsCommon(chunks[..|chunks| - 1]);
    }
  }

  function Sightings(frames: seq<Frame>): (r: seq<Sighting>)
    ensures |r| == |frames|
  {
    seq(|frames|, i requires 0 <= i < |frames| =>
      Sighting(ChunkSemantic(frames[i].chunk), frames[i].when.arrivedAt))
  }

  // Choices are visited in index order; the first one without a public reason is reported.
  method TerminalChoices(table: map<int, ChoiceState>, emptyAllowed: bool)
    returns (choices: seq<Choice>, error: Option<StreamError>)
    ensures error.None? ==>
              StrictlyAscending(ChoiceIndexes(choices)) && Elements(ChoiceIndexes(choices)) == table.Keys &&
              forall i | 0 <= i < |choices| ::
                choices[i].index in table && choices[i].finishReason.Some? &&
                ChoiceVerdict(choices[i].index, table[choices[i].index], emptyAllowed) ==
                  Ok(choices[i].finishReason.value) &&
                choices[i] == Choice(choices[i].index, EMPTY_DELTA, choices[i].finishReason, "")
    ensures error.Some? ==>
              IsEndError(error.value) &&
              exists index | index in table ::
                ChoiceVerdict(index, table[index], emptyAllowed) == Err(error.value) &&
                forall lower | lower in table && lower < index :: ChoiceVerdict(lower, table[lower], emptyAllowed).Ok?
  {
    var indexes := SortAscending(table.Keys);
    choices, error := [], None;
    for i := 0 to |indexes|
      invariant |choices| == i && forall n | 0 <= n < i ::
        choices[n] == Choice(indexes[n], EMPTY_DELTA, choices[n].finishReason, "") &&
        choices[n].finishReason.Some? && indexes[n] in table &&
        ChoiceVerdict(indexes[n], table[indexes[n]], emptyAllowed) == Ok(choices[n].finishReason.value)
    {
      var index := indexes[i];
      assert index in Elements(indexes);
      var verdict := ChoiceVerdict(index, table[index], emptyAllowed);
      if verdict.Err? {
        forall lower | lower in table && lower < index
          ensures ChoiceVerdict(lower, table[lower], emptyAllowed).Ok?
        {
          assert lower in Elements(indexes);
          var n :| 0 <= n < |indexes| && indexes[n] == lower;
        }
        return choices, Some(verdict.error);
      }
      choices := choices + [Choice(index, EMPTY_DELTA, Some(verdict.value), "")];
    }
    assert ChoiceIndexes(choices) == indexes;
  }

  // The observer's local variables between two frames.
  datatype Locals = Locals(adapterTerminal: Option<Terminal>, usage: Option<Usage>, lastChunk: Option<Chunk>,
                           choices: map<int, ChoiceState>, progressDeadline: Option<int>, progressPhase: Phase,
                           reasoningDeadline: Option<int>)

  // What the locals mean when k frames have been read and forwarded.
  ghost predicate Progress(run: Run, k: nat, v: Locals, diagnostics: Option<Diagnostics>, seen: seq<Sighting>)
    requires k <= |run.frames|
  {
    var chunks := ChunksOf(run.frames)[..k];
    (forall i | 0 <= i < k :: FrameAccepted(run, i)) &&
    Tracks(v.choices, Choices(chunks)) && v.adapterTerminal == AdapterTerminal(chunks) &&
    AdapterTerminalsAgree(chunks) && v.usage == LastUsage(chunks) &&
    v.lastChunk == (if k == 0 then None else Some(run.frames[k - 1].chunk)) &&
    diagnostics == Gathered(run.context, chunks) && seen == Sightings(run.frames[..k])
  }

  ghost predicate Clocked(run: Run, k: nat, v: Locals)
    requires k <= |run.frames|
  {
    exists j: Option<nat>, r: Option<nat> ::
      DeadlinesTrack(run, k, v.progressDeadline, v.progressPhase, v.reasoningDeadline, j, r)
  }

  lemma ProgressStep(run: Run, k: nat, v: Locals, diagnostics: Option<Diagnostics>, seen: seq<Sighting>, v': Locals)
    requires k < |run.frames| && Progress(run, k, v, diagnostics, seen)
    requires OnTime(run, k)
    requires var c := run.frames[k].chunk;
             && AdapterFollows(v.adapterTerminal, c, v'.adapterTerminal)
             && v'.usage == (if c.usage.Some? then c.usage else v.usage) && v'.lastChunk == Some(c)
    requires Tracks(v'.choices, Choices(ChunksOf(run.frames)[..k]) + run.frames[k].chunk.choices)
    ensures var c := run.frames[k].chunk;
            Progress(run, k + 1, v', Absorb(diagnostics, c),
                     seen + [Sighting(ChunkSemantic(c), run.frames[k].when.arrivedAt)])
  {
    var chunks := ChunksOf(run.frames);
    var c := run.frames[k].chunk;
    assert chunks[..k + 1][..k] == chunks[..k] && chunks[..k + 1][k] == c;
    AdapterStep(chunks, k);
    ChoicesStep(chunks, k);
    assert ReasonsAgree(chunks[..k + 1]);
    hide OnTime, Tracks, ReasonsAgree, AdapterTerminalsAgree;
    assert FrameAccepted(run, k);
    hide FrameAccepted;
    SightingsStep(run.frames, k);
  }

  lemma SightingsStep(frames: seq<Frame>, k: nat)
    requires k < |frames|
    ensures Sightings(frames[..k + 1]) ==
              Sightings(frames[..k]) + [Sighting(ChunkSemantic(frames[k].chunk), frames[k].when.arrivedAt)]
  {
    hide ChunkSemantic;
  }

  method AwaitNext(run: Run, k: nat, v: Locals) returns (lost: Option<StreamError>)
    requires k <= |run.frames| && Clocked(run, k, v)
    ensures if OnTime(run, k) then lost == None else lost.Some? && Explains(run, k, lost.value)
  {
    var when := if k < |run.frames| then run.frames[k].when else run.ending.when;
    var active := ActiveDeadline(v.progressDeadline, v.reasoningDeadline);
    lost := NextBefore(when, active, ActivePhase(active, v.reasoningDeadline, v.progressPhase));
    ghost var j: Option<nat>, r: Option<nat> :|
      DeadlinesTrack(run, k, v.progressDeadline, v.progressPhase, v.reasoningDeadline, j, r);
    RaceDecides(run, k, v.progressDeadline, v.progressPhase, v.reasoningDeadline, j, r);
  }

  method MoveDeadlines(run: Run, k: nat, v: Locals)
    returns (progress: Option<int>, phase: Phase, reasoning: Option<int>)
    requires k < |run.frames| && Clocked(run, k, v)
    ensures forall v': Locals | v'.progressDeadline == progress && v'.progressPhase == phase &&
              v'.reasoningDeadline == reasoning :: Clocked(run, k + 1, v')
  {
    ghost var j: Option<nat>, r: Option<nat> :|
      DeadlinesTrack(run, k, v.progressDeadline, v.progressPhase, v.reasoningDeadline, j, r);
    progress, phase, reasoning, j, r :=
      DeadlinesAfter(run, k, v.progressDeadline, v.progressPhase, v.reasoningDeadline, j, r);
  }

  // Refuses a terminal that contradicts the one already seen.
  method CheckAdapter(run: Run, k: nat, v: Locals, ghost diagnostics: Option<Diagnostics>, ghost seen: seq<Sighting>)
    returns (adapterTerminal: Option<Terminal>, error: Option<StreamError>)
    requires k < |run.frames| && Progress(run, k, v, diagnostics, seen) && OnTime(run, k)
    ensures error.Some? ==> Explains(run, k, error.value)
    ensures error.None? ==> AdapterFollows(v.adapterTerminal, run.frames[k].chunk, adapterTerminal)
  {
    hide OnTime, Tracks;
    var chunk := run.frames[k].chunk;
    adapterTerminal, error := v.adapterTerminal, None;
    AdapterStep(ChunksOf(run.frames), k);
    if HasTerminal(chunk) {
      if v.adapterTerminal.Some? && v.adapterTerminal != chunk.diagnostics.value.terminal {
        return adapterTerminal, Some(ConflictingAdapterTerminals);
      }
      adapterTerminal := chunk.diagnostics.value.terminal;
    }
  }

  // Merges the frame's choices; a conflict here is the last way a frame can be refused.
  method CheckChoices(run: Run, k: nat, v: Locals, ghost diagnostics: Option<Diagnostics>, ghost seen: seq<Sighting>)
    returns (table: map<int, ChoiceState>, error: Option<StreamError>)
    requires k < |run.frames| && Progress(run, k, v, diagnostics, seen) && OnTime(run, k)
    requires AdapterTerminalsAgree(ChunksOf(run.frames)[..k + 1])
    ensures error.Some? ==> Explains(run, k, error.value)
    ensures error.None? ==> Tracks(table, Choices(ChunksOf(run.frames)[..k]) + run.frames[k].chunk.choices)
  {
    hide OnTime, Tracks, AdapterTerminalsAgree;
    table, error := MergeChoices(v.choices, run.frames[k].chunk.choices, Choices(ChunksOf(run.frames)[..k]));
    ChoicesStep(ChunksOf(run.frames), k);
  }

  // One turn of the outer loop, from asking for a chunk to having it ready to forward.
  method ReadFrame(run: Run, k: nat, v: Locals, observation: StreamObservation)
    returns (v': Locals, error: Option<StreamError>)
    requires k < |run.frames|
    requires Progress(run, k, v, observation.diagnostics, observation.seen) && Clocked(run, k, v)
    requires observation.Valid() && observation.usage == v.usage
    modifies observation
    ensures observation.Valid() && observation.terminal == old(observation.terminal)
    ensures error.None? ==> observation.usage == v'.usage
    ensures error.None? ==> Progress(run, k + 1, v', observation.diagnostics, observation.seen)
    ensures error.None? ==> Clocked(run, k + 1, v')
    ensures error.Some? ==> Explains(run, k, error.value)
  {
    hide Explains, Progress, Clocked, OnTime, Tracks, DeadlinesTrack, AdapterTerminalsAgree;
    hide StreamObservation.Valid, StreamObservation.CountsValid, StreamObservation.TimesValid;
    ghost var diagnostics, seen := observation.diagnostics, observation.seen;
    var chunk := run.frames[k].chunk;
    v' := v;
    error := AwaitNext(run, k, v);
    if error.Some? { return; }
    var adapterTerminal, contradiction := CheckAdapter(run, k, v, diagnostics, seen);
    if contradiction.Some? { return v', contradiction; }
    AdapterStaysConsistent(run, k, v, diagnostics, seen, adapterTerminal);
    observation.diagnostics := Absorb(observation.diagnostics, chunk);
    observation.RecordFrame(ChunkSemantic(chunk), run.frames[k].when.arrivedAt);
    var progress, phase, reasoning := MoveDeadlines(run, k, v);
    if chunk.usage.Some? { observation.usage := chunk.usage; }
    var table, conflict := CheckChoices(run, k, v, diagnostics, seen);
    if conflict.Some? { return v', conflict; }
    v' := Locals(adapterTerminal, if chunk.usage.Some? then chunk.usage else v.usage, Some(chunk), table,
                 progress, phase, reasoning);
    ProgressStep(run, k, v, diagnostics, seen, v');
  }

  // What the locals mean once every frame has been read.
  ghost predicate AtEnd(run: Run, v: Locals, diagnostics: Option<Diagnostics>) {
    Tracks(v.choices, Choices(ChunksOf(run.frames))) &&
    diagnostics == Gathered(run.context, ChunksOf(run.frames)) &&
    v.adapterTerminal == AdapterTerminal(ChunksOf(run.frames)) && v.usage == LastUsage(ChunksOf(run.frames)) &&
    v.lastChunk == if run.frames == [] then None else Some(run.frames[|run.frames| - 1].chunk)
  }

  // The end of the stream: the terminal chunk and terminal record, or the protocol error.
  method SynthesizeTerminal(run: Run, v: Locals, diagnostics: Option<Diagnostics>)
    returns (terminalChunk: Chunk, terminal: CanonicalTerminal, error: Option<StreamError>)
    requires AtEnd(run, v, diagnostics)
    ensures error.None? <==> EndAccepted(run)
    ensures error.Some? ==> EndRejects(run, error.value) && IsEndError(error.value)
    ensures error.None? ==>
              IsTerminalChunk(run, terminalChunk) && terminalChunk.choices != [] &&
              terminal == TerminalForReasons(FinishReasons(terminalChunk.choices), v.adapterTerminal, v.usage)
  {
    hide Tracks, EndAccepted, EndRejects, IsTerminalChunk, TerminalForReasons, ChoiceVerdict, Gathered;
    terminalChunk := Chunk("", 0, "", [], None, None);
    terminal := CanonicalTerminal(Completed, ForStop, None);
    EndReadOffTable(run, v.choices);
    if |v.choices| == 0 || v.lastChunk.None? {
      EmptyTable(v.choices, ChunksOf(run.frames), v.lastChunk.None?);
      return terminalChunk, terminal, Some(NoSemanticTerminal);
    }
    assert v.choices.Keys != {};
    var choices, bad := TerminalChoices(v.choices, EmptyOutputAllowed(diagnostics));
    error := bad;
    if bad.Some? { return; }
    var last := v.lastChunk.value;
    terminalChunk := Chunk(last.id, last.created, last.model, choices, None, diagnostics);
    AllIndexesListed(choices, v.choices.Keys);
    TerminalChunkStands(run, v.choices, terminalChunk);
    terminal := TerminalForReasons(FinishReasons(choices), v.adapterTerminal, v.usage);
  }

  predicate AdapterFollows(current: Option<Terminal>, chunk: Chunk, next: Option<Terminal>) {
    !(current.Some? && HasTerminal(chunk) && current != chunk.diagnostics.value.terminal) &&
    next == if HasTerminal(chunk) then chunk.diagnostics.value.terminal else current
  }

  lemma AdapterStaysConsistent(run: Run, k: nat, v: Locals, diagnostics: Option<Diagnostics>, seen: seq<Sighting>,
                               next: Option<Terminal>)
    requires k < |run.frames| && Progress(run, k, v, diagnostics, seen)
    requires AdapterFollows(v.adapterTerminal, run.frames[k].chunk, next)
    ensures AdapterTerminalsAgree(ChunksOf(run.frames)[..k + 1])
  {
    AdapterStep(ChunksOf(run.frames), k);
  }

  ghost predicate TableAccepts(table: map<int, ChoiceState>, allowed: bool) {
    table.Keys != {} && forall index | index in table :: ChoiceVerdict(index, table[index], allowed).Ok?
  }

  lemma EndReadOffTable(run: Run, table: map<int, ChoiceState>)
    requires Tracks(table, Choices(ChunksOf(run.frames)))
    ensures var allowed := EmptyOutputAllowed(Gathered(run.context, ChunksOf(run.frames)));
            && (EndAccepted(run) <==> TableAccepts(table, allowed))
            && (table.Keys == {} ==> EndRejects(run, NoSemanticTerminal))
            && (forall index | index in table && ChoiceVerdict(index, table[index], allowed).Err? &&
                  (forall lower | lower in table && lower < index :: ChoiceVerdict(lower, table[lower], allowed).Ok?) ::
                  EndRejects(run, ChoiceVerdict(index, table[index], allowed).error))
  {
  }

  lemma TerminalChunkStands(run: Run, table: map<int, ChoiceState>, t: Chunk)
    requires Tracks(table, Choices(ChunksOf(run.frames))) && run.frames != []
    requires var last := run.frames[|run.frames| - 1].chunk;
             && t.id == last.id && t.created == last.created && t.model == last.model && t.usage == None
             && t.diagnostics == Gathered(run.context, ChunksOf(run.frames))
    requires StrictlyAscending(ChoiceIndexes(t.choices)) && Elements(ChoiceIndexes(t.choices)) == table.Keys
    requires forall i | 0 <= i < |t.choices| ::
               t.choices[i].index in table && t.choices[i].finishReason.Some? &&
               ChoiceVerdict(t.choices[i].index, table[t.choices[i].index], EmptyOutputAllowed(t.diagnostics)) ==
                 Ok(t.choices[i].finishReason.value) &&
               t.choices[i] == Choice(t.choices[i].index, EMPTY_DELTA, t.choices[i].finishReason, "")
    ensures IsTerminalChunk(run, t)
  {
  }

  lemma AllIndexesListed(choices: seq<Choice>, keys: set<int>)
    requires Elements(ChoiceIndexes(choices)) == keys && keys != {}
    ensures choices != []
    ensures forall k | k in keys :: exists n :: 0 <= n < |choices| && choices[n].index == k
  {
    forall k | k in keys
      ensures exists n :: 0 <= n < |choices| && choices[n].index == k
    {
      assert k in Elements(ChoiceIndexes(choices));
      var n :| 0 <= n < |choices| && ChoiceIndexes(choices)[n] == k;
      assert choices[n].index == k;
    }
    var k := SomeElement(keys);
  }

  predicate IsEndError(e: StreamError) {
    e.NoSemanticTerminal? || e.MissingReason? || e.StopWithoutOutput? || e.ToolCallsWithoutTool?
  }

  // What the observer has forwarded and recorded when the stream is over.
  ghost predicate Concluded(run: Run, emitted: seq<Chunk>, error: Option<StreamError>,
                            terminal: Option<CanonicalTerminal>)
  {
    var chunks := ChunksOf(run.frames);
    if error.None? then
      |emitted| == |chunks| + 1 && emitted[..|chunks|] == EraseAll(chunks) &&
      IsTerminalChunk(run, emitted[|chunks|]) && emitted[|chunks|].choices != [] &&
      terminal == Some(TerminalForReasons(FinishReasons(emitted[|chunks|].choices), AdapterTerminal(chunks),
                                          LastUsage(chunks)))
    else
      |emitted| <= |chunks| && emitted == EraseAll(chunks[..|emitted|]) && terminal.None? &&
      (forall i | 0 <= i < |emitted| :: FrameAccepted(run, i)) &&
      Explains(run, |emitted|, error.value)
  }

  lemma CutShort(run: Run, k: nat, v: Locals, diagnostics: Option<Diagnostics>, seen: seq<Sighting>,
                 emitted: seq<Chunk>, e: StreamError)
    requires k <= |run.frames| && emitted == EraseAll(ChunksOf(run.frames)[..k])
    requires Progress(run, k, v, diagnostics, seen)
    requires Explains(run, k, e)
    ensures Concluded(run, emitted, Some(e), None)
    ensures !Accepted(run)
  {
    if k < |run.frames| { assert !FrameAccepted(run, k); }
  }

  // Forwards chunks until the stream ends or a frame is refused.
  method ForwardFrames(run: Run, observation: StreamObservation, v0: Locals)
    returns (v: Locals, emitted: seq<Chunk>, error: Option<StreamError>)
    requires observation.Valid() && observation.terminal == None && observation.usage == v0.usage
    requires Progress(run, 0, v0, observation.diagnostics, observation.seen) && Clocked(run, 0, v0)
    modifies observation
    ensures observation.Valid() && observation.terminal == None
    ensures error.None? ==>
              observation.usage == v.usage &&
              emitted == EraseAll(ChunksOf(run.frames)) && Clocked(run, |run.frames|, v) &&
              Progress(run, |run.frames|, v, observation.diagnostics, observation.seen)
    ensures error.Some? ==> Concluded(run, emitted, error, None) && !Accepted(run)
  {
    hide Explains, Progress, Clocked, Accepted, Concluded;
    hide StreamObservation.Valid, StreamObservation.CountsValid, StreamObservation.TimesValid;
    v, emitted := v0, [];
    var k := 0;
    while k < |run.frames|
      invariant 0 <= k <= |run.frames| && emitted == EraseAll(ChunksOf(run.frames)[..k])
      invariant observation.Valid() && observation.terminal == None && observation.usage == v.usage
      invariant Progress(run, k, v, observation.diagnostics, observation.seen)
      invariant Clocked(run, k, v)
    {
      ghost var diagnostics, seen := observation.diagnostics, observation.seen;
      ghost var before := v;
      v, error := ReadFrame(run, k, v, observation);
      if error.Some? {
        CutShort(run, k, before, diagnostics, seen, emitted, error.value);
        return;
      }
      emitted := emitted + [Erase(run.frames[k].chunk)];
      k := k + 1;
    }
    assert ChunksOf(run.frames)[..k] == ChunksOf(run.frames);
    error := None;
  }

  // How the stream ended on the wire: the terminator its diagnostics named, where the caller passed a
  // diagnostics object for them to be gathered in, and otherwise plain end of file.
  function TerminatorOf(run: Run): Terminator {
    var gathered := Gathered(run.context, ChunksOf(run.frames));
    if run.context.Some? && gathered.Some? && gathered.value.terminator.Some? then gathered.value.terminator.value
    else EofMark
  }

  ghost predicate Recorded(run: Run, seen: seq<Sighting>, usage: Option<Usage>, diagnostics: Option<Diagnostics>,
                           terminator: Option<Terminator>)
  {
    seen == Sightings(run.frames) && usage == LastUsage(ChunksOf(run.frames)) &&
    diagnostics == Gathered(run.context, ChunksOf(run.frames)) && terminator == Some(TerminatorOf(run))
  }

  method ObserveChatStream(run: Run)
    returns (observation: StreamObservation, emitted: seq<Chunk>, error: Option<StreamError>)
    ensures fresh(observation) && observation.Valid()
    ensures error.None? <==> Accepted(run)
    ensures Concluded(run, emitted, error, observation.terminal)
    ensures error.None? ==> Recorded(run, observation.seen, observation.usage, observation.diagnostics,
                                     observation.transportTerminator)
  {
    hide Explains, Progress, Tracks, IsTerminalChunk, Clocked, EndRejects, EndAccepted, OnTime;
    hide TerminalForReasons, Gathered, Accepted, Concluded, IsEndError;
    hide StreamObservation.Valid, StreamObservation.CountsValid, StreamObservation.TimesValid;
    observation := new StreamObservation(run.context);
    var v := Locals(None, None, None, map[],
                    if run.policy.Some? then Some(run.startedAt + run.policy.value.firstOutputMs) else None,
                    FirstOutput, None);
    NothingReadYet(run, v);
    v, emitted, error := ForwardFrames(run, observation, v);
    if error.Some? { return; }
    ghost var diagnostics, seen := observation.diagnostics, observation.seen;
    ReadToTheEnd(run, v, diagnostics, seen);
    error := AwaitNext(run, |run.frames|, v);
    if error.None? && run.ending.failure.Some? { error := Some(UpstreamFailed(run.ending.failure.value)); }
    if error.Some? {
      StoppedAtEnd(run, v, diagnostics, seen, emitted, error.value);
      return;
    }
    observation.transportTerminator :=
      if run.context.Some? && observation.diagnostics.Some? && observation.diagnostics.value.terminator.Some?
      then observation.diagnostics.value.terminator else Some(EofMark);
    var terminalChunk, terminal, bad := SynthesizeTerminal(run, v, observation.diagnostics);
    error := bad;
    if error.Some? {
      StoppedAtEnd(run, v, diagnostics, seen, emitted, error.value);
      return;
    }
    observation.terminal := Some(terminal);
    Completes(run, v, diagnostics, seen, emitted, terminalChunk, terminal);
    emitted := emitted + [terminalChunk];
  }

  lemma ReadToTheEnd(run: Run, v: Locals, diagnostics: Option<Diagnostics>, seen: seq<Sighting>)
    requires Progress(run, |run.frames|, v, diagnostics, seen)
    ensures AtEnd(run, v, diagnostics) && seen == Sightings(run.frames)
  {
    assert ChunksOf(run.frames)[..|run.frames|] == ChunksOf(run.frames);
    assert run.frames[..|run.frames|] == run.frames;
  }

  // The run was refused after its last frame: by a deadline, by the upstream, or by the verdict
  // on its choices.
  lemma StoppedAtEnd(run: Run, v: Locals, diagnostics: Option<Diagnostics>, seen: seq<Sighting>,
                     emitted: seq<Chunk>, e: StreamError)
    requires Progress(run, |run.frames|, v, diagnostics, seen) && emitted == EraseAll(ChunksOf(run.frames))
    requires (!OnTime(run, |run.frames|) && Explains(run, |run.frames|, e)) ||
             (OnTime(run, |run.frames|) && run.ending.failure.Some? && e == UpstreamFailed(run.ending.failure.value)) ||
             (OnTime(run, |run.frames|) && run.ending.failure.None? && !EndAccepted(run) && EndRejects(run, e) &&
              IsEndError(e))
    ensures Concluded(run, emitted, Some(e), None) && !Accepted(run)
  {
    assert ChunksOf(run.frames)[..|run.frames|] == ChunksOf(run.frames);
    CutShort(run, |run.frames|, v, diagnostics, seen, emitted, e);
  }

  lemma Completes(run: Run, v: Locals, diagnostics: Option<Diagnostics>, seen: seq<Sighting>,
                  emitted: seq<Chunk>, t: Chunk, terminal: CanonicalTerminal)
    requires Progress(run, |run.frames|, v, diagnostics, seen) && emitted == EraseAll(ChunksOf(run.frames))
    requires OnTime(run, |run.frames|) && run.ending.failure.None? && EndAccepted(run)
    requires IsTerminalChunk(run, t) && t.choices != []
    requires terminal == TerminalForReasons(FinishReasons(t.choices), AdapterTerminal(ChunksOf(run.frames)),
                                            LastUsage(ChunksOf(run.frames)))
    ensures Concluded(run, emitted + [t], None, Some(terminal)) && Accepted(run)
  {
    hide IsTerminalChunk, EndAccepted, OnTime, FrameAccepted;
  }

  lemma NothingReadYet(run: Run, v: Locals)
    requires v == Locals(None, None, None, map[],
      if run.policy.Some? then Some(run.startedAt + run.policy.value.firstOutputMs) else None, FirstOutput, None)
    ensures Progress(run, 0, v, run.context, []) && Clocked(run, 0, v)
  {
    assert DeadlinesTrack(run, 0, v.progressDeadline, v.progressPhase, v.reasoningDeadline, None, None);
  }

  lemma EmptyTable(table: map<int, ChoiceState>, chunks: seq<Chunk>, noChunk: bool)
    requires Tracks(table, Choices(chunks)) && (noChunk ==> chunks == [])
    requires |table| == 0 || noChunk
    ensures table.Keys == {}
  {
    if |table| == 0 { assert table == map[]; }
  }
}
