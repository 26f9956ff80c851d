// One upstream WebSocket carries one turn at a time: socket callbacks feed the active turn's queue
// and a generator reads it, learning the upstream response id on the way.
module ResponsesSocket {
  import opened Prelude
  import opened AsyncQueues

  // A parsed message: its event name and the id of its response object when that is a string.
  datatype Message = Message(name: string, responseId: Option<string>, raw: string)

  datatype Fault = BinaryMessage | InvalidJson | SocketWasClosed | Mapped(error: string) | TurnAborted(reason: string)

  datatype Incoming =
    | Text(message: Message)
    | Binary
    | Garbled
    | SocketClosed
    | SocketError(error: string)
    | SendError(error: string)
    | Abort(reason: string)

  const TERMINAL_EVENTS := {"response.completed", "response.incomplete", "response.failed", "error"}

  predicate IsTerminal(m: Message) {
    m.name in TERMINAL_EVENTS
  }

  function FaultOf(ev: Incoming): Fault
    requires !ev.Text?
  {
    match ev
    case Binary => BinaryMessage
    case Garbled => InvalidJson
    case SocketClosed => SocketWasClosed
    case SocketError(e) => Mapped(e)
    case SendError(e) => Mapped(e)
    case Abort(r) => TurnAborted(r)
  }

  function Feed(q: Queue<Message, Fault>, ev: Incoming): (r: Queue<Message, Fault>)
    requires WellFormed(q)
    ensures WellFormed(r)
  {
    if ev.Text? then
      var pushed := Push(q, ev.message);
      if IsTerminal(ev.message) then End(pushed) else pushed
    else Fail(q, Some(FaultOf(ev)))
  }

  datatype CreateError = Closed | Busy

  class ResponsesSocketSession {
    var activeQueue: AsyncQueue?<Message, Fault>
    var open: bool

    ghost predicate Valid()
      reads this, activeQueue
    {
      activeQueue != null ==> WellFormed(activeQueue.Model())
    }

    constructor ()
      ensures Valid() && open && activeQueue == null
    {
      activeQueue := null;
      open := true;
    }

    method Create() returns (queue: AsyncQueue?<Message, Fault>, error: Option<CreateError>)
      requires Valid()
      modifies this
      ensures Valid() && open == old(open)
      ensures error == if !old(open) then Some(Closed) else if old(activeQueue) != null then Some(Busy) else None
      ensures error.Some? ==> queue == null && activeQueue == old(activeQueue)
      ensures error.None? ==> queue != null && fresh(queue) && queue == activeQueue && queue.Model() == Empty()
    {
      if !open { return null, Some(Closed); }
      if activeQueue != null { return null, Some(Busy); }
      queue := new AsyncQueue();
      activeQueue := queue;
      error := None;
    }

    method Arrive(ev: Incoming)
      requires Valid()
      modifies `open, activeQueue
      ensures Valid() && open == (old(open) && !ev.SocketClosed? && !ev.Abort?)
      ensures activeQueue != null ==> activeQueue.Model() == Feed(old(activeQueue.Model()), ev)
    {
      if ev.SocketClosed? || ev.Abort? { open := false; }
      if activeQueue == null { return; }
      match ev {
        case Text(message) =>
          activeQueue.PushValue(message);
          if IsTerminal(message) { activeQueue.EndQueue(); }
        case _ => activeQueue.FailQueue(Some(FaultOf(ev)));
      }
    }
  }

  // --- What a turn should receive ---------------------------------------------------------------------

  // The messages up to and including the first terminal event, cut short by the first fault.
  function Delivered(evs: seq<Incoming>): seq<Message> {
    if evs == [] || !evs[0].Text? then []
    else if IsTerminal(evs[0].message) then [evs[0].message]
    else [evs[0].message] + Delivered(evs[1..])
  }

  function ClosedBy(evs: seq<Incoming>): Option<Answer<Message, Fault>> {
    if evs == [] then None
    else if !evs[0].Text? then Some(Failed(Some(FaultOf(evs[0]))))
    else if IsTerminal(evs[0].message) then Some(Done)
    else ClosedBy(evs[1..])
  }

  lemma {:induction false} OneMoreArrival(evs: seq<Incoming>, ev: Incoming)
    ensures ClosedBy(evs).Some? ==>
              ClosedBy(evs + [ev]) == ClosedBy(evs) && Delivered(evs + [ev]) == Delivered(evs)
    ensures ClosedBy(evs).None? ==>
              ClosedBy(evs + [ev]) == ClosedBy([ev]) && Delivered(evs + [ev]) == Delivered(evs) + Delivered([ev])
  {
    if evs != [] {
      assert (evs + [ev])[1..] == evs[1..] + [ev];
      OneMoreArrival(evs[1..], ev);
    } else {
      assert evs + [ev] == [ev];
    }
  }

  // Whatever arrives after the closing event, a socket close included, changes nothing.
  lemma {:induction false} NothingAfterTheEnd(evs: seq<Incoming>, more: seq<Incoming>)
    requires ClosedBy(evs).Some?
    ensures ClosedBy(evs + more) == ClosedBy(evs) && Delivered(evs + more) == Delivered(evs)
    decreases |more|
  {
    if more == [] {
      assert evs + more == evs;
    } else {
      OneMoreArrival(evs, more[0]);
      assert evs + more == (evs + [more[0]]) + more[1..];
      NothingAfterTheEnd(evs + [more[0]], more[1..]);
    }
  }

  // A turn that ends without fault was delivered everything up to its one terminal message.
  lemma {:induction false} CleanEndMeansTerminalLast(evs: seq<Incoming>)
    requires ClosedBy(evs) == Some(Done)
    ensures var d := Delivered(evs);
            && |d| > 0 && IsTerminal(d[|d| - 1]) && |d| <= |evs|
            && (forall i | 0 <= i < |d| - 1 :: !IsTerminal(d[i]))
            && (forall i | 0 <= i < |d| :: evs[i] == Text(d[i]))
  {
    if !IsTerminal(evs[0].message) { CleanEndMeansTerminalLast(evs[1..]); }
  }

  // --- Turns ---------------------------------------------------------------------------------------------

  datatype TurnEnd = SawEnd | SawFault(fault: Option<Fault>) | Abandoned

  datatype Turn = Turn(queue: Queue<Message, Fault>, arrived: seq<Incoming>, consumed: seq<Message>, asked: bool,
                       end: Option<TurnEnd>, id: Option<Option<string>>)

  datatype Socket = Socket(open: bool, active: Option<Turn>, past: seq<Turn>)

  const FRESH_TURN := Turn(Empty(), [], [], false, None, None)

  const FRESH_SOCKET := Socket(true, None, [])

  predicate Announces(m: Message) {
    (m.name == "response.created" || m.name == "response.in_progress") && m.responseId.Some?
  }

  // The first settlement wins.
  function ResolveId(id: Option<Option<string>>, value: Option<string>): Option<Option<string>> {
    if id.Some? then id else Some(value)
  }

  datatype Step = Create | Arrive(event: Incoming) | Ask | Resume | Abandon | Shut

  ghost predicate Enabled(s: Socket, step: Step) {
    match step
    case Arrive(event) => event.Abort? || event.SendError? ==> s.active.Some?
    case Ask => s.active.Some? && !s.active.value.asked
    case Resume =>
      s.active.Some? && s.active.value.asked && |s.active.value.queue.answers| > 0 &&
      s.active.value.queue.answers[|s.active.value.queue.answers| - 1].Some?
    case Abandon => s.active.Some? && !s.active.value.asked && |s.active.value.consumed| > 0
    case _ => true
  }

  function Finish(s: Socket, t: Turn, end: TurnEnd): Socket {
    Socket(s.open, None, s.past + [t.(asked := false, end := Some(end), id := ResolveId(t.id, None))])
  }

  ghost predicate QueueOk(s: Socket) {
    s.active.Some? ==> WellFormed(s.active.value.queue)
  }

  ghost function Apply(s: Socket, step: Step): Socket
    requires Enabled(s, step) && QueueOk(s)
  {
    match step
    case Create => if s.open && s.active.None? then s.(active := Some(FRESH_TURN)) else s
    case Arrive(event) =>
      var open := s.open && !event.SocketClosed? && !event.Abort?;
      if s.active.None? then s.(open := open)
      else
        var t := s.active.value;
        Socket(open, Some(t.(queue := Feed(t.queue, event), arrived := t.arrived + [event])), s.past)
    case Ask =>
      var t := s.active.value;
      s.(active := Some(t.(queue := Next(t.queue), asked := true)))
    case Resume =>
      var t := s.active.value;
      (match t.queue.answers[|t.queue.answers| - 1].value
       case Value(m) =>
         s.(active := Some(t.(consumed := t.consumed + [m], asked := false,
                              id := if Announces(m) then ResolveId(t.id, m.responseId) else t.id)))
       case Done => Finish(s, t, SawEnd)
       case Failed(fault) => Finish(s, t, SawFault(fault)))
    case Abandon => Finish(s, s.active.value, Abandoned)
    case Shut => s.(open := false)
  }

  // The id a reader of these messages has learnt.
  function LearntId(ms: seq<Message>): Option<Option<string>> {
    if ms == [] then None
    else
      var before := LearntId(ms[..|ms| - 1]);
      if before.Some? then before
      else if Announces(ms[|ms| - 1]) then Some(ms[|ms| - 1].responseId) else None
  }

  function CallsMade(t: Turn): nat {
    |t.consumed| + (if t.asked then 1 else 0) +
    (if t.end.Some? && t.end.value != Abandoned then 1 else 0)
  }

  // A turn receives exactly the messages between its creation and its first closing event.
  ghost predicate TurnOk(t: Turn) {
    WellFormed(t.queue) && InOrder(t.queue) &&
    t.queue.accepted == Delivered(t.arrived) && Closing(t.queue) == ClosedBy(t.arrived) &&
    |t.queue.answers| == CallsMade(t) && t.consumed <= t.queue.accepted &&
    (t.asked ==> t.end.None?) &&
    t.id == (if t.end.Some? then ResolveId(LearntId(t.consumed), None) else LearntId(t.consumed)) &&
    (t.end == Some(SawEnd) ==> ClosedBy(t.arrived) == Some(Done) && t.consumed == Delivered(t.arrived)) &&
    (t.end.Some? && t.end.value.SawFault? ==>
       ClosedBy(t.arrived) == Some(Failed(t.end.value.fault)) && t.consumed == Delivered(t.arrived))
  }

  ghost predicate SocketOk(s: Socket) {
    (s.active.Some? ==> TurnOk(s.active.value) && s.active.value.end.None?) &&
    (forall i | 0 <= i < |s.past| :: TurnOk(s.past[i]) && s.past[i].end.Some?)
  }

  lemma ArriveKeeps(t: Turn, ev: Incoming)
    requires TurnOk(t) && t.end.None?
    ensures TurnOk(t.(queue := Feed(t.queue, ev), arrived := t.arrived + [ev]))
  {
    hide InOrder, LearntId;
    OneMoreArrival(t.arrived, ev);
    var q := t.queue;
    var r := Feed(q, ev);
    assert Open(q) <==> ClosedBy(t.arrived).None?;
    if ev.Text? {
      PushKeeps(q, ev.message);
      if IsTerminal(ev.message) { EndKeeps(Push(q, ev.message)); }
      assert Delivered([ev]) == [ev.message] by { assert [ev][1..] == []; }
      assert ClosedBy([ev]) == if IsTerminal(ev.message) then Some(Done) else None by { assert [ev][1..] == []; }
    } else {
      FailKeeps(q, Some(FaultOf(ev)));
    }
    assert r.accepted == Delivered(t.arrived + [ev]);
  }

  lemma AskKeeps(t: Turn)
    requires TurnOk(t) && t.end.None? && !t.asked
    ensures TurnOk(t.(queue := Next(t.queue), asked := true))
  {
    NextKeeps(t.queue);
  }

  lemma ResumeKeeps(s: Socket)
    requires SocketOk(s) && Enabled(s, Resume)
    ensures SocketOk(Apply(s, Resume))
  {
    hide LearntId;
    var t := s.active.value;
    var q := t.queue;
    var k := |q.answers| - 1;
    assert q.answers[k] == Due(q, k);
    match q.answers[k].value {
      case Value(m) =>
        LearnOneMore(t.consumed, m);
        assert t.consumed + [m] == q.accepted[..k + 1];
      case Done =>
        assert k >= |q.accepted|;
        assert t.consumed == q.accepted;
      case Failed(fault) =>
        assert k >= |q.accepted|;
        assert t.consumed == q.accepted;
    }
  }

  lemma LearnOneMore(ms: seq<Message>, m: Message)
    ensures LearntId(ms + [m]) == if Announces(m) then ResolveId(LearntId(ms), m.responseId) else LearntId(ms)
  {
    assert (ms + [m])[..|ms|] == ms;
  }

  lemma StepKeeps(s: Socket, step: Step)
    requires SocketOk(s) && Enabled(s, step)
    ensures SocketOk(Apply(s, step))
  {
    match step
    case Create => assert InOrder(FRESH_TURN.queue);
    case Arrive(event) => if s.active.Some? { ArriveKeeps(s.active.value, event); }
    case Ask => AskKeeps(s.active.value);
    case Resume => ResumeKeeps(s);
    case Abandon =>
    case Shut =>
  }

  ghost predicate IsRun(states: seq<Socket>, steps: seq<Step>) {
    |states| == |steps| + 1 && states[0] == FRESH_SOCKET &&
    forall i | 0 <= i < |steps| ::
      Enabled(states[i], steps[i]) && (QueueOk(states[i]) ==> states[i + 1] == Apply(states[i], steps[i]))
  }

  lemma {:induction false} EveryTurnReceivesItsMessages(states: seq<Socket>, steps: seq<Step>, k: nat)
    requires IsRun(states, steps) && k < |states|
    ensures SocketOk(states[k])
  {
    if k > 0 {
      EveryTurnReceivesItsMessages(states, steps, k - 1);
      StepKeeps(states[k - 1], steps[k - 1]);
    }
  }

  // A turn whose first closing event was a terminal message never ends in a fault, and its reader
  // was given every message up to that event.
  lemma TerminalBeatsLaterClose(states: seq<Socket>, steps: seq<Step>, k: nat, i: nat, upTo: nat)
    requires IsRun(states, steps) && k < |states| && i < |states[k].past|
    requires upTo <= |states[k].past[i].arrived| && ClosedBy(states[k].past[i].arrived[..upTo]) == Some(Done)
    ensures var t := states[k].past[i];
            && t.end.Some? && !t.end.value.SawFault?
            && (t.end == Some(SawEnd) ==> t.consumed == Delivered(t.arrived[..upTo]))
  {
    EveryTurnReceivesItsMessages(states, steps, k);
    var t := states[k].past[i];
    NothingAfterTheEnd(t.arrived[..upTo], t.arrived[upTo..]);
    assert t.arrived[..upTo] + t.arrived[upTo..] == t.arrived;
  }

  // The upstream id settles once: no step changes it again.
  lemma IdSettlesOnce(s: Socket, step: Step)
    requires SocketOk(s) && Enabled(s, step) && s.active.Some? && s.active.value.id.Some?
    ensures var after := Apply(s, step);
            if after.active.Some? then after.active.value.id == s.active.value.id
            else |after.past| == |s.past| + 1 && after.past[|s.past|].id == s.active.value.id
    ensures Apply(s, step).past[..|s.past|] == s.past
  {
  }

  // --- Turns do not overlap --------------------------------------------------------------------------------

  // What the socket received during a stretch of steps.
  function Arrivals(steps: seq<Step>): seq<Incoming>
    decreases |steps|
  {
    if steps == [] then []
    else
      var last := steps[|steps| - 1];
      Arrivals(steps[..|steps| - 1]) + if last.Arrive? then [last.event] else []
  }

  // What each turn so far was given, in order of creation.
  function Given(s: Socket): (r: seq<seq<Incoming>>)
    ensures |r| == |s.past| + if s.active.Some? then 1 else 0
    ensures forall i | 0 <= i < |s.past| :: r[i] == s.past[i].arrived
    ensures s.active.Some? ==> r[|s.past|] == s.active.value.arrived
  {
    seq(|s.past|, i requires 0 <= i < |s.past| => s.past[i].arrived) +
    if s.active.Some? then [s.active.value.arrived] else []
  }

  datatype Span = Span(from: nat, to: nat)

  // A stretch of the run that starts with the creation of a turn and during which a turn is active.
  ghost predicate Stretch(states: seq<Socket>, steps: seq<Step>, span: Span)
    requires |states| == |steps| + 1
  {
    span.from < span.to <= |steps| && steps[span.from] == Create &&
    forall j | span.from < j <= span.to :: states[j].active.Some?
  }

  // Each turn owns a stretch of the run, and what arrived on the socket in it is what the turn was given.
  // Stretches follow one another without overlap.
  ghost predicate Owned(states: seq<Socket>, steps: seq<Step>, n: nat, spans: seq<Span>)
    requires n <= |steps| && |states| == |steps| + 1
  {
    |spans| == |Given(states[n])| &&
    (forall i | 0 <= i < |spans| ::
       Stretch(states, steps, spans[i]) && spans[i].to <= n &&
       Given(states[n])[i] == Arrivals(steps[spans[i].from..spans[i].to])) &&
    (forall i, j | 0 <= i < j < |spans| :: spans[i].to <= spans[j].from) &&
    (states[n].active.Some? ==> spans[|spans| - 1].to == n)
  }

  lemma ArrivalsStep(steps: seq<Step>, from: nat, n: nat)
    requires from <= n < |steps|
    ensures Arrivals(steps[from..n + 1]) == Arrivals(steps[from..n]) + Arrivals([steps[n]])
  {
    assert steps[from..n + 1][..n - from] == steps[from..n];
    assert [steps[n]][..0] == [];
  }

  // A step gives what arrives to the active turn, creates a turn, or leaves what was given alone.
  lemma GivenStep(s: Socket, step: Step)
    requires Enabled(s, step) && QueueOk(s)
    ensures var r := Apply(s, step);
            if s.active.Some? && r.active.Some?
            then Given(r) == Given(s)[|s.past| := Given(s)[|s.past|] + Arrivals([step])]
            else if r.active.Some? then step == Create && Given(r) == Given(s) + [[]]
            else Given(r) == Given(s)
  {
    hide Feed, Next, ResolveId;
    assert [step][..0] == [];
    assert Arrivals([step]) == if step.Arrive? then [step.event] else [];
    var r := Apply(s, step);
    assert s.active.Some? && r.active.Some? ==>
             r.past == s.past && r.active.value.arrived == s.active.value.arrived + Arrivals([step]);
    if s.active.Some? && r.active.None? {
      assert r.past[..|s.past|] == s.past && r.past[|s.past|].arrived == s.active.value.arrived;
      assert |r.past| == |s.past| + 1;
    }
  }

  lemma {:induction false} SpansUpTo(states: seq<Socket>, steps: seq<Step>, n: nat) returns (spans: seq<Span>)
    requires IsRun(states, steps) && n <= |steps|
    ensures Owned(states, steps, n, spans)
  {
    if n == 0 {
      spans := [];
    } else {
      hide Given, Stretch, Enabled, Apply, Owned, SocketOk;
      var before := SpansUpTo(states, steps, n - 1);
      EveryTurnReceivesItsMessages(states, steps, n - 1);
      assert QueueOk(states[n - 1]) by { OkQueue(states[n - 1]); }
      GivenStep(states[n - 1], steps[n - 1]);
      spans := NextSpans(states, steps, n - 1, before);
    }
  }

  lemma OkQueue(s: Socket)
    requires SocketOk(s)
    ensures QueueOk(s)
  {
  }

  lemma NextSpans(states: seq<Socket>, steps: seq<Step>, n: nat, spans: seq<Span>) returns (next: seq<Span>)
    requires |states| == |steps| + 1 && n < |steps| && Owned(states, steps, n, spans)
    requires var s, r := states[n], states[n + 1];
             if s.active.Some? && r.active.Some?
             then Given(r) == Given(s)[|s.past| := Given(s)[|s.past|] + Arrivals([steps[n]])]
             else if r.active.Some? then steps[n] == Create && Given(r) == Given(s) + [[]]
             else Given(r) == Given(s)
    ensures Owned(states, steps, n + 1, next)
  {
    hide Arrivals;
    var s, r := states[n], states[n + 1];
    if s.active.Some? && r.active.Some? {
      var last := spans[|spans| - 1];
      next := spans[|spans| - 1 := last.(to := n + 1)];
      ArrivalsStep(steps, last.from, n);
      assert Stretch(states, steps, last.(to := n + 1));
    } else if r.active.Some? {
      next := spans + [Span(n, n + 1)];
      assert steps[n..n + 1] == [steps[n]];
      NothingArrives(steps[n]);
      assert Stretch(states, steps, Span(n, n + 1));
    } else {
      next := spans;
    }
  }

  lemma NothingArrives(step: Step)
    requires step == Create
    ensures Arrivals([step]) == []
  {
    assert [step][..0] == [];
  }

  // Turns never overlap: in every run each turn has its own stretch of the run, and was given exactly what
  // arrived on the socket during it.
  lemma TurnsOwnDisjointSpans(states: seq<Socket>, steps: seq<Step>, n: nat)
    requires IsRun(states, steps) && n <= |steps|
    ensures exists spans :: Owned(states, steps, n, spans)
  {
    var spans := SpansUpTo(states, steps, n);
  }
}
