// The image and transcription observers: the same loop over events that are forwarded as they are, with
// one deadline and one terminal event that must come last.
module EventStreams {
  import opened Prelude
  import opened StreamModel
  import opened StreamLifecycle

  datatype Medium = Images | Transcriptions

  // `terminal` marks a completed image or a done transcription; every other event is a part of the output.
  datatype Event = Event(when: When, terminal: bool, payload: string)

  datatype EventRun = EventRun(medium: Medium, startedAt: int, policy: Option<Policy>, context: Option<Diagnostics>,
                               events: seq<Event>, ending: Ending)

  datatype EventError =
    | TimedOut(phase: Phase)
    | Upstream(error: string)
    | DataAfterTerminal
    | SecondTerminal
    | NoTerminalEvent

  function SemanticOf(medium: Medium, e: Event): Semantic {
    if medium.Images? then Media else if e.terminal then UsageOnly else Content
  }

  function ArrivalOf(run: EventRun, k: nat): When
    requires k <= |run.events|
  {
    if k < |run.events| then run.events[k].when else run.ending.when
  }

  // The deadline for the next event: the first-output budget at the start, the idle budget after any event.
  function DeadlineBefore(run: EventRun, k: nat): Option<int>
    requires k <= |run.events|
  {
    if run.policy.None? then None
    else if k == 0 then Some(run.startedAt + run.policy.value.firstOutputMs)
    else After(run.events[k - 1].when.arrivedAt, run.policy.value.idleMs)
  }

  ghost predicate OnTimeAt(run: EventRun, k: nat)
    requires k <= |run.events|
  {
    DeadlineBefore(run, k).Some? ==> Meets(ArrivalOf(run, k), DeadlineBefore(run, k).value)
  }

  ghost predicate TerminalBefore(run: EventRun, k: nat)
    requires k <= |run.events|
  {
    exists i :: 0 <= i < k && run.events[i].terminal
  }

  // A good stream has one terminal event, which comes last, and never keeps anybody waiting too long.
  ghost predicate Good(run: EventRun) {
    run.events != [] && run.events[|run.events| - 1].terminal && !TerminalBefore(run, |run.events| - 1) &&
    (forall k | 0 <= k <= |run.events| :: OnTimeAt(run, k)) && run.ending.failure.None?
  }

  // Whether anything that counts as output came before event k.
  ghost predicate OutputBefore(run: EventRun, k: nat)
    requires k <= |run.events|
  {
    exists i :: 0 <= i < k && SemanticOf(run.medium, run.events[i]) in OUTPUT_SEMANTICS
  }

  // Why a run may stop after k events. A deadline is named after what was seen.
  ghost predicate Stops(run: EventRun, k: nat, e: EventError)
    requires k <= |run.events|
  {
    match e
    case TimedOut(phase) => !OnTimeAt(run, k) && phase == if OutputBefore(run, k) then Idle else FirstOutput
    case Upstream(error) => k == |run.events| && OnTimeAt(run, k) && run.ending.failure == Some(error)
    case DataAfterTerminal => k < |run.events| && OnTimeAt(run, k) && TerminalBefore(run, k)
    case SecondTerminal =>
      k < |run.events| && OnTimeAt(run, k) && TerminalBefore(run, k) && run.events[k].terminal
    case NoTerminalEvent =>
      k == |run.events| && OnTimeAt(run, k) && run.ending.failure.None? && !TerminalBefore(run, k)
  }

  function EventSightings(medium: Medium, events: seq<Event>): (r: seq<Sighting>)
    ensures |r| == |events|
    ensures forall i | 0 <= i < |events| :: r[i] == Sighting(SemanticOf(medium, events[i]), events[i].when.arrivedAt)
  {
    seq(|events|, i requires 0 <= i < |events| => Sighting(SemanticOf(medium, events[i]), events[i].when.arrivedAt))
  }

  lemma OutputShows(run: EventRun, k: nat)
    requires k <= |run.events|
    ensures FirstAt(EventSightings(run.medium, run.events[..k]), OUTPUT_SEMANTICS).Some? <==> OutputBefore(run, k)
  {
    var seen := EventSightings(run.medium, run.events[..k]);
    FirstAtIsTheFirst(seen, OUTPUT_SEMANTICS);
    assert forall i | 0 <= i < k :: seen[i].semantic == SemanticOf(run.medium, run.events[i]);
  }

  // A terminal event followed by another one spoils the stream.
  lemma EarlyTerminalIsNotGood(run: EventRun, k: nat)
    requires k < |run.events| && TerminalBefore(run, k)
    ensures !Good(run)
  {
    var i :| 0 <= i < k && run.events[i].terminal;
    assert TerminalBefore(run, |run.events| - 1);
  }

  lemma LateIsNotGood(run: EventRun, k: nat)
    requires k <= |run.events| && !OnTimeAt(run, k)
    ensures !Good(run)
  {
  }

  lemma GoodAtTheEnd(run: EventRun)
    requires forall k | 0 <= k < |run.events| :: OnTimeAt(run, k) && !TerminalBefore(run, k)
    ensures Good(run) <==>
              OnTimeAt(run, |run.events|) && run.ending.failure.None? && TerminalBefore(run, |run.events|)
  {
    hide OnTimeAt;
    if TerminalBefore(run, |run.events|) {
      var i :| 0 <= i < |run.events| && run.events[i].terminal;
      assert !TerminalBefore(run, |run.events| - 1);
    } else if run.events != [] {
      assert !run.events[|run.events| - 1].terminal;
    }
  }

  // Every event before the kth was asked for and came in time, and none before it was terminal.
  ghost predicate WentOn(run: EventRun, k: nat)
    requires k <= |run.events|
  {
    forall i | 0 <= i < k :: OnTimeAt(run, i) && !TerminalBefore(run, i)
  }

  // After an event a missed deadline is still called that of the first output exactly if the stream is a
  // transcription that has sent its done event and nothing else.
  lemma NamedFirstOutputIff(run: EventRun, k: nat)
    requires 0 < k <= |run.events| && WentOn(run, k)
    ensures Stops(run, k, TimedOut(FirstOutput)) <==>
              !OnTimeAt(run, k) && run.medium.Transcriptions? && k == 1 && run.events[0].terminal
  {
    hide OnTimeAt;
    assert k > 1 ==> !TerminalBefore(run, 1);
    assert k > 1 ==> !run.events[0].terminal;
    if !run.events[0].terminal || run.medium.Images? {
      assert SemanticOf(run.medium, run.events[0]) in OUTPUT_SEMANTICS;
    }
  }

  // In time means: the first event, or the end, within the first-output budget from the start, and every later one
  // within the idle budget of the event before it, both when asked for and when it came.
  lemma InTimeMeans(run: EventRun, k: nat, p: Policy)
    requires k <= |run.events| && run.policy == Some(p)
    ensures var when := if k < |run.events| then run.events[k].when else run.ending.when;
            OnTimeAt(run, k) <==>
              if k == 0 then
                when.polledAt < run.startedAt + p.firstOutputMs && when.arrivedAt <= run.startedAt + p.firstOutputMs
              else p.idleMs.None? || p.idleMs == Some(0) ||
                   (when.polledAt < run.events[k - 1].when.arrivedAt + p.idleMs.value &&
                    when.arrivedAt <= run.events[k - 1].when.arrivedAt + p.idleMs.value)
  {
  }

  // An accepted stream lasts at most the first-output budget and one idle budget per event.
  lemma {:induction false} AcceptedEventsAreBounded(run: EventRun, k: nat, p: Policy, idle: int)
    requires Good(run) && run.policy == Some(p) && p.idleMs == Some(idle) && idle != 0 && k <= |run.events|
    ensures (if k < |run.events| then run.events[k].when else run.ending.when).arrivedAt <=
              run.startedAt + p.firstOutputMs + k * idle
  {
    InTimeMeans(run, k, p);
    if k > 0 { AcceptedEventsAreBounded(run, k - 1, p, idle); }
  }

  const MISNAMED := EventRun(Transcriptions, 0, Some(Policy(10, Some(5), None)), None,
                             [Event(When(0, 1), true, "")], Ending(When(1, 7), None))

  // A transcription sends its done event and then keeps the gateway waiting: the only way it can stop is to be
  // said to have missed its first output.
  lemma DoneThenSilent()
    ensures WentOn(MISNAMED, 1) && Stops(MISNAMED, 1, TimedOut(FirstOutput))
    ensures forall k: nat, e | k <= 1 && WentOn(MISNAMED, k) && Stops(MISNAMED, k, e) :: k == 1 && e == TimedOut(FirstOutput)
  {
    assert OnTimeAt(MISNAMED, 0) && !OnTimeAt(MISNAMED, 1);
    NamedFirstOutputIff(MISNAMED, 1);
  }

  // Events are forwarded unchanged until the stream ends or one is refused. A second terminal event has its own
  // error, which is never the one returned: any event after the first terminal one is refused before.
  method ObserveEventStream(run: EventRun)
    returns (observation: StreamObservation, emitted: seq<Event>, error: Option<EventError>)
    ensures fresh(observation) && observation.Valid()
    ensures error.None? <==> Good(run)
    ensures error.None? ==>
              emitted == run.events && observation.seen == EventSightings(run.medium, run.events) &&
              observation.terminal == Some(CanonicalTerminal(Completed, ForStop, None)) &&
              observation.transportTerminator ==
                Some(if run.context.Some? && run.context.value.terminator.Some? then run.context.value.terminator.value
                     else EofMark)
    ensures error.Some? ==>
              emitted <= run.events && Stops(run, |emitted|, error.value) && observation.terminal.None? &&
              WentOn(run, |emitted|) && error.value != SecondTerminal
  {
    hide StreamObservation.Valid, Good, OnTimeAt;
    observation := new StreamObservation(run.context);
    emitted, error := [], None;
    var completed := false;
    var deadline := if run.policy.Some? then Some(run.startedAt + run.policy.value.firstOutputMs) else None;
    var k := 0;
    while k < |run.events|
      invariant 0 <= k <= |run.events| && emitted == run.events[..k] && observation.Valid()
      invariant deadline == DeadlineBefore(run, k) && (completed <==> TerminalBefore(run, k))
      invariant observation.seen == EventSightings(run.medium, run.events[..k]) && observation.terminal.None?
      invariant observation.diagnostics == run.context
      invariant WentOn(run, k)
    {
      var event := run.events[k];
      var lost := Await(run, k, deadline, observation);
      if lost.Some? {
        assert !Good(run) by { LateIsNotGood(run, k); }
        return observation, emitted, lost;
      }
      var refused := if completed then Some(DataAfterTerminal) else None;
      if refused.None? {
        observation.RecordFrame(SemanticOf(run.medium, event), event.when.arrivedAt);
        deadline := if run.policy.Some? then After(event.when.arrivedAt, run.policy.value.idleMs) else None;
        if event.terminal {
          refused := if completed then Some(SecondTerminal) else None;
          completed := true;
        }
      }
      if refused.Some? {
        EarlyTerminalIsNotGood(run, k);
        return observation, emitted, refused;
      }
      emitted := emitted + [event];
      k := k + 1;
    }
    GoodAtTheEnd(run);
    error := Await(run, k, deadline, observation);
    if error.None? && run.ending.failure.Some? { error := Some(Upstream(run.ending.failure.value)); }
    if error.Some? { return; }
    observation.transportTerminator :=
      if run.context.Some? && run.context.value.terminator.Some? then run.context.value.terminator else Some(EofMark);
    if !completed { return observation, emitted, Some(NoTerminalEvent); }
    observation.terminal := Some(CanonicalTerminal(Completed, ForStop, None));
  }

  method Await(run: EventRun, k: nat, deadline: Option<int>, observation: StreamObservation)
    returns (lost: Option<EventError>)
    requires k <= |run.events| && deadline == DeadlineBefore(run, k) && observation.Valid()
    requires observation.seen == EventSightings(run.medium, run.events[..k])
    ensures if OnTimeAt(run, k) then lost == None else lost.Some? && lost.value.TimedOut? && Stops(run, k, lost.value)
  {
    OutputShows(run, k);
    var phase := if observation.firstOutputAt.None? then FirstOutput else Idle;
    var late := NextBefore(ArrivalOf(run, k), deadline, phase);
    lost := if late.Some? then Some(TimedOut(phase)) else None;
  }
}
