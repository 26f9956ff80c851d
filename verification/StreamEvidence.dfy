// What the observer's classifications and records mean in terms of the chunks themselves.
module StreamEvidence {
  import opened Prelude
  import opened StreamModel
  import opened StreamLifecycle

  // --- Output ---------------------------------------------------------------------------------------------

  // A delta shows nothing exactly if it is empty but for fields meant for the provider.
  lemma EmptyDeltasHaveNoOutput(d: Delta)
    ensures !DeltaHasOutput(d) <==> d.(providerFields := "") == EMPTY_DELTA
  {
  }

  ghost predicate HasOutput(chunk: Chunk) {
    exists c :: c in chunk.choices && DeltaHasOutput(c.delta)
  }

  ghost predicate HasTool(chunk: Chunk) {
    exists c :: c in chunk.choices && c.delta.toolCalls != []
  }

  // The chunk as it would be if no delta carried reasoning.
  function Unreasoned(chunk: Chunk): Chunk {
    chunk.(choices := seq(|chunk.choices|, i requires 0 <= i < |chunk.choices| =>
      chunk.choices[i].(delta := chunk.choices[i].delta.(reasoning := ""))))
  }

  lemma UnreasonedChoices(chunk: Chunk)
    ensures forall c | c in chunk.choices :: c.(delta := c.delta.(reasoning := "")) in Unreasoned(chunk).choices
    ensures forall u | u in Unreasoned(chunk).choices ::
              exists c :: c in chunk.choices && u == c.(delta := c.delta.(reasoning := ""))
  {
    forall c | c in chunk.choices
      ensures c.(delta := c.delta.(reasoning := "")) in Unreasoned(chunk).choices
    {
      var i :| 0 <= i < |chunk.choices| && chunk.choices[i] == c;
      assert Unreasoned(chunk).choices[i] == c.(delta := c.delta.(reasoning := ""));
    }
    forall u | u in Unreasoned(chunk).choices
      ensures exists c :: c in chunk.choices && u == c.(delta := c.delta.(reasoning := ""))
    {
      var i :| 0 <= i < |chunk.choices| && Unreasoned(chunk).choices[i] == u;
      assert chunk.choices[i] in chunk.choices;
    }
  }

  lemma ShownWithoutReasoning(chunk: Chunk)
    ensures HasOutput(Unreasoned(chunk)) <==>
              exists c :: c in chunk.choices && DeltaHasOutput(c.delta.(reasoning := ""))
  {
    hide DeltaHasOutput, Unreasoned;
    UnreasonedChoices(chunk);
    if HasOutput(Unreasoned(chunk)) {
      var u :| u in Unreasoned(chunk).choices && DeltaHasOutput(u.delta);
      var c :| c in chunk.choices && u == c.(delta := c.delta.(reasoning := ""));
      assert DeltaHasOutput(c.delta.(reasoning := ""));
    }
    if c :| c in chunk.choices && DeltaHasOutput(c.delta.(reasoning := "")) {
      assert c.(delta := c.delta.(reasoning := "")) in Unreasoned(chunk).choices;
    }
  }

  // A frame moves the idle deadline exactly if it shows something; it is a tool frame exactly if it carries a
  // tool call, and a reasoning frame exactly if it would show nothing without its reasoning. A frame that
  // shows nothing is a usage frame exactly if it carries usage.
  lemma FramesCountAsWhatTheyShow(chunk: Chunk)
    ensures IsUseful(ChunkSemantic(chunk)) <==> HasOutput(chunk)
    ensures ChunkSemantic(chunk) == Tool <==> HasTool(chunk)
    ensures ChunkSemantic(chunk) == Reasoning <==> HasOutput(chunk) && !HasOutput(Unreasoned(chunk))
    ensures IsVisible(ChunkSemantic(chunk)) <==> HasOutput(Unreasoned(chunk))
    ensures ChunkSemantic(chunk) == UsageOnly <==> !HasOutput(chunk) && chunk.usage.Some?
  {
    ShownWithoutReasoning(chunk);
    hide Unreasoned;
  }

  // --- Deadlines ------------------------------------------------------------------------------------------

  // A stream without reasoning is never stopped for its reasoning.
  lemma WithoutReasoningNoReasoningTimeout(run: Run, emitted: seq<Chunk>, error: Option<StreamError>,
                                           terminal: Option<CanonicalTerminal>)
    requires Concluded(run, emitted, error, terminal)
    requires forall k, c | 0 <= k < |run.frames| && c in run.frames[k].chunk.choices :: c.delta.reasoning == ""
    ensures error != Some(Timeout(ReasoningOnly))
  {
    if error == Some(Timeout(ReasoningOnly)) {
      hide FrameAccepted;
      var k := |emitted|;
      assert !ReasoningMet(run, k);
      var r: nat :| OpensReasoning(run, r, k);
      var chunk := run.frames[r].chunk;
      assert Unreasoned(chunk).choices == chunk.choices by {
        assert forall i | 0 <= i < |chunk.choices| :: chunk.choices[i] in chunk.choices;
      }
      FramesCountAsWhatTheyShow(chunk);
    }
  }

  // Frames that show nothing before the first one that does neither use up nor move any deadline but the first.
  lemma BeforeAnyOutputOnlyTheFirstDeadline(run: Run, k: nat)
    requires k <= |run.frames| && forall i | 0 <= i < k :: !HasOutput(run.frames[i].chunk)
    ensures OnTime(run, k) <==>
              (run.policy.Some? ==>
                 run.startedAt + run.policy.value.firstOutputMs > WhenOf(run, k).polledAt &&
                 run.startedAt + run.policy.value.firstOutputMs >= WhenOf(run, k).arrivedAt)
  {
    forall i | 0 <= i < k
      ensures !IsUseful(SemanticAt(run, i))
    {
      FramesCountAsWhatTheyShow(run.frames[i].chunk);
    }
  }

  // Once the stream has shown something, and nothing but reasoning and silence since it last showed something
  // else, the wait for frame k is judged by the last frame that showed something and by the first that reasoned.
  lemma AfterOutputTheLastFrameCounts(run: Run, j: nat, k: nat, p: Policy)
    requires j < k <= |run.frames| && run.policy == Some(p)
    requires HasOutput(Unreasoned(run.frames[j].chunk))
    requires forall i | j < i < k :: !HasOutput(run.frames[i].chunk)
    ensures OnTime(run, k) <==>
              (p.idleMs.Some? && p.idleMs.value != 0 ==>
                 run.frames[j].when.arrivedAt + p.idleMs.value > WhenOf(run, k).polledAt &&
                 run.frames[j].when.arrivedAt + p.idleMs.value >= WhenOf(run, k).arrivedAt)
  {
    forall i | j <= i < k
      ensures i == j ==> IsVisible(SemanticAt(run, i))
      ensures i > j ==> !IsUseful(SemanticAt(run, i))
    {
      FramesCountAsWhatTheyShow(run.frames[i].chunk);
    }
    hide ChunkSemantic, HasOutput;
    assert LastUseful(run, j, k);
    assert forall j': nat | LastUseful(run, j', k) :: j' == j;
    assert forall r: nat :: !OpensReasoning(run, r, k);
  }

  // --- Times ----------------------------------------------------------------------------------------------

  // The time of the first output is that of the first chunk that shows something.
  lemma FirstOutputIsTheFirstShown(frames: seq<Frame>, k: nat)
    requires k < |frames| && HasOutput(frames[k].chunk) && forall i | 0 <= i < k :: !HasOutput(frames[i].chunk)
    ensures FirstAt(Sightings(frames), OUTPUT_SEMANTICS) == Some(frames[k].when.arrivedAt)
  {
    hide HasOutput;
    var seen := Sightings(frames);
    FirstAtIsTheFirst(seen, OUTPUT_SEMANTICS);
    forall i | 0 <= i <= k
      ensures seen[i].semantic in OUTPUT_SEMANTICS <==> i == k
      ensures seen[i].at == frames[i].when.arrivedAt
    {
      FramesCountAsWhatTheyShow(frames[i].chunk);
    }
  }

  // And nothing was output where no chunk shows anything.
  lemma NoOutputTimeWithoutOutput(frames: seq<Frame>)
    requires forall i | 0 <= i < |frames| :: !HasOutput(frames[i].chunk)
    ensures FirstAt(Sightings(frames), OUTPUT_SEMANTICS) == None
  {
    hide HasOutput;
    var seen := Sightings(frames);
    FirstAtIsTheFirst(seen, OUTPUT_SEMANTICS);
    forall i | 0 <= i < |frames|
      ensures seen[i].semantic !in OUTPUT_SEMANTICS
    {
      FramesCountAsWhatTheyShow(frames[i].chunk);
    }
  }

  // --- What later chunks override ---------------------------------------------------------------------------

  // The usage of a stream is that of the last chunk that reports one.
  lemma {:induction false} UsageIsTheLastReported(chunks: seq<Chunk>)
    ensures LastUsage(chunks).None? <==> forall i | 0 <= i < |chunks| :: chunks[i].usage.None?
    ensures LastUsage(chunks).Some? ==>
              exists i :: 0 <= i < |chunks| && chunks[i].usage == LastUsage(chunks) &&
                          forall j | i < j < |chunks| :: chunks[j].usage.None?
  {
    if chunks != [] {
      var front, last := chunks[..|chunks| - 1], chunks[|chunks| - 1];
      UsageIsTheLastReported(front);
      assert forall i | 0 <= i < |front| :: front[i] == chunks[i];
      if last.usage.None? && LastUsage(front).Some? {
        var i :| 0 <= i < |front| && front[i].usage == LastUsage(front) && forall j | i < j < |front| :: front[j].usage.None?;
        assert chunks[i].usage == LastUsage(chunks);
        assert forall j | i < j < |chunks| :: chunks[j] == last || chunks[j] == front[j];
      }
    }
  }

  // Something diagnostics may name.
  type Naming<!T> = Option<Diagnostics> -> Option<T>

  function NamedTerminal(d: Option<Diagnostics>): Option<Terminal> {
    if d.None? then None else d.value.terminal
  }

  function NamedTerminator(d: Option<Diagnostics>): Option<Terminator> {
    if d.None? then None else d.value.terminator
  }

  function Lookup<T>(m: map<string, T>, key: string): Option<T> {
    if key in m then Some(m[key]) else None
  }

  function NamedField(d: Option<Diagnostics>, key: string): Option<string> {
    if d.None? then None else Lookup(d.value.fields, key)
  }

  function NamedMetadata(d: Option<Diagnostics>, key: string): Option<MetaValue> {
    if d.None? then None else Lookup(d.value.metadata, key)
  }

  // What is gathered names what the last chunk that names anything does, or else what the caller's diagnostics do.
  ghost predicate LastNamed<T>(name: Naming<T>, context: Option<Diagnostics>, chunks: seq<Chunk>) {
    ((forall i | 0 <= i < |chunks| :: name(chunks[i].diagnostics).None?) ==>
       name(Gathered(context, chunks)) == name(context)) &&
    forall i | 0 <= i < |chunks| && name(chunks[i].diagnostics).Some? &&
               (forall j | i < j < |chunks| :: name(chunks[j].diagnostics).None?) ::
      name(Gathered(context, chunks)) == name(chunks[i].diagnostics)
  }

  lemma {:induction false} LaterWins<T>(name: Naming<T>, context: Option<Diagnostics>, chunks: seq<Chunk>)
    requires forall seen, chunk :: name(Absorb(seen, chunk)) ==
               if name(chunk.diagnostics).Some? then name(chunk.diagnostics) else name(seen)
    ensures LastNamed(name, context, chunks)
  {
    if chunks != [] {
      var front, last := chunks[..|chunks| - 1], chunks[|chunks| - 1];
      LaterWins(name, context, front);
      assert Gathered(context, chunks) == Absorb(Gathered(context, front), last);
      hide Gathered, Absorb;
      assert forall i | 0 <= i < |front| :: front[i] == chunks[i];
      assert chunks[|front|] == last;
      forall i | 0 <= i < |chunks| && name(chunks[i].diagnostics).Some? &&
                 (forall j | i < j < |chunks| :: name(chunks[j].diagnostics).None?)
        ensures name(Gathered(context, chunks)) == name(chunks[i].diagnostics)
      {
        assert name(last.diagnostics).Some? ==> i == |front|;
        assert forall j | i < j < |front| :: name(front[j].diagnostics).None?;
      }
    }
  }

  // Terminal, terminator, every field and every piece of metadata are those named last.
  lemma DiagnosticsAreTheLastNamed(context: Option<Diagnostics>, chunks: seq<Chunk>, key: string)
    ensures LastNamed(NamedTerminal, context, chunks) && LastNamed(NamedTerminator, context, chunks)
    ensures LastNamed(d => NamedField(d, key), context, chunks) && LastNamed(d => NamedMetadata(d, key), context, chunks)
  {
    LaterWins(NamedTerminal, context, chunks);
    LaterWins(NamedTerminator, context, chunks);
    LaterWins(d => NamedField(d, key), context, chunks);
    LaterWins(d => NamedMetadata(d, key), context, chunks);
  }

  // Empty output is allowed exactly if the metadata gathered say true, not merely something.
  lemma AllowedOnlyByTrue(d: Option<Diagnostics>)
    ensures EmptyOutputAllowed(d) <==> NamedMetadata(d, "emptyOutputAllowed") == Some(MetaBool(true))
  {
  }

  // Without diagnostics of the caller's the wire is taken to end plainly, whatever chunks name; with them, it ends as
  // was named last, or plainly.
  lemma TerminatorIsTheLastNamed(run: Run)
    ensures run.context.None? ==> TerminatorOf(run) == EofMark
    ensures run.context.Some? ==>
              var named := NamedTerminator(Gathered(run.context, ChunksOf(run.frames)));
              TerminatorOf(run) == if named.Some? then named.value else EofMark
  {
  }

  // In an accepted run the terminal record repeats what any chunk's adapter said about the end, whatever the
  // finish reasons, and the usage of the last chunk that reported one.
  lemma AdapterEvidenceDecides(run: Run, emitted: seq<Chunk>, terminal: Option<CanonicalTerminal>, k: nat)
    requires Accepted(run) && Concluded(run, emitted, None, terminal)
    requires k < |run.frames| && HasTerminal(run.frames[k].chunk)
    ensures terminal.Some?
    ensures var said := run.frames[k].chunk.diagnostics.value.terminal.value;
            terminal.value == CanonicalTerminal(said.outcome, said.reason, LastUsage(ChunksOf(run.frames)))
  {
    var chunks := ChunksOf(run.frames);
    assert FrameAccepted(run, |run.frames| - 1);
    assert chunks[..|chunks|] == chunks;
    hide IsTerminalChunk, OnTime, EndAccepted, ReasonsAgree, LastUsage;
    AdapterTerminalIsCommon(chunks);
    assert chunks[k] == run.frames[k].chunk;
  }
}
