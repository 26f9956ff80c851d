// A public WebSocket connection as a state machine over its turns, run against an abstract upstream
// that keeps one conversation per response id: what the upstream reads, whatever a turn sends (a delta,
// everything, a retry, to whichever deployment), against the gateway's own conversation.
module Continuation {
  import opened Prelude
  import opened ResponsesSessions

  // --- Local expansion of compaction items ------------------------------------------------------

  predicate Expandable(i: Item) {
    i.Compaction? && i.unsealed.Some?
  }

  function ExpandItem(i: Item): Item {
    if Expandable(i) then Developer(i.unsealed.value) else i
  }

  function Expand(items: seq<Item>): (r: seq<Item>)
    ensures |r| == |items|
    ensures forall i | 0 <= i < |items| :: r[i] == ExpandItem(items[i])
  {
    seq(|items|, i requires 0 <= i < |items| => ExpandItem(items[i]))
  }

  lemma ExpandConcat(a: seq<Item>, b: seq<Item>)
    ensures Expand(a + b) == Expand(a) + Expand(b)
  {
    assert forall i | 0 <= i < |a + b| :: Expand(a + b)[i] == (Expand(a) + Expand(b))[i];
  }

  lemma ExpandTwice(a: seq<Item>)
    ensures Expand(Expand(a)) == Expand(a)
  {
    assert forall i | 0 <= i < |a| :: Expand(Expand(a))[i] == Expand(a)[i];
  }

  // Sealed and opened forms of one conversation agree as sequences only when nothing is sealed.
  lemma ExpandIsIdentityIffNothingSealed(a: seq<Item>)
    ensures Expand(a) == a <==> forall i | 0 <= i < |a| :: !Expandable(a[i])
  {
    if Expand(a) == a {
      forall i | 0 <= i < |a|
        ensures !Expandable(a[i])
      {
        assert Expand(a)[i] == a[i];
      }
    }
  }

  // --- State ----------------------------------------------------------------------------------------

  // One stored response: the input it was generated from and its output.
  datatype Stored = Stored(requestInput: seq<Item>, output: seq<Item>)

  datatype ConnectionState = ConnectionState(id: PublicId, stored: Stored)

  // What the upstream read and produced, and what the gateway recorded of that: extensions may rewrite a
  // stream before it is recorded.
  datatype Answer = Answer(served: Option<seq<Item>>, produced: seq<Item>, recorded: seq<Item>,
                           upstreamId: Option<UpstreamId>)

  datatype Attempt = Attempt(deployment: DeploymentId, route: Route, answer: Option<Answer>)

  // `generate` is false for a warm-up, which asks for no output.
  datatype Turn = Turn(previous: Option<PublicId>, current: seq<Item>, generate: bool, effective: seq<Item>,
                       attempt: Option<Attempt>)

  // What is remembered of a completed turn: the gateway's input, own part of it and output, the conversation
  // the upstream generated from, when one was involved, and what it produced, the turn this one continued by
  // sending only its own part, and how many turns were completed before.
  datatype Completed = Completed(effective: seq<Item>, current: seq<Item>, generate: bool, output: seq<Item>,
                                 served: Option<seq<Item>>, produced: seq<Item>, continues: Option<PublicId>,
                                 number: nat, session: Option<SessionId>, upstreamId: Option<UpstreamId>)

  datatype Callback = Callback(session: SessionId, publicId: PublicId, upstreamId: Option<UpstreamId>)

  datatype Connection = Connection(
    state: Option<ConnectionState>,
    stored: map<PublicId, Stored>,
    bindings: View,
    turn: Option<Turn>,
    // the previous response of the last turn, which may still fail after its commit
    finishing: Option<PublicId>,
    pending: set<Callback>,
    issued: set<PublicId>,
    nextSession: SessionId,
    // the upstream: the conversation behind each id of each socket, and the ids it still remembers
    conversations: map<(SessionId, UpstreamId), seq<Item>>,
    remembered: set<(SessionId, UpstreamId)>,
    log: map<PublicId, Completed>)

  const INITIAL := Connection(None, map[], map[], None, None, {}, {}, 0, map[], {}, map[])

  function PreviousItems(c: Connection, previous: Option<PublicId>): Option<seq<Item>> {
    match previous
    case None => Some([])
    case Some(p) =>
      if c.state.Some? && c.state.value.id == p then
        Some(c.state.value.stored.requestInput + c.state.value.stored.output)
      else if p in c.stored then Some(c.stored[p].requestInput + c.stored[p].output)
      else None
  }

  // --- Steps ------------------------------------------------------------------------------------------

  datatype Step =
    // a response.create message; its own input with references already resolved
    | Begin(previous: Option<PublicId>, current: seq<Item>, generate: bool)
    // a message is refused before its turn begins: its sender is not authenticated, or its previous response
    // cannot be found; `reported` as in Fail
    | Refuse(previous: Option<PublicId>, reported: bool)
    // routing hands the turn to a deployment; `connects` says whether a needed connection succeeds
    | Try(deployment: DeploymentId, handler: bool, connects: bool)
    // the upstream generates, and the gateway records that or a rewriting of it; or the upstream reports
    // that it no longer knows the previous id
    | Generate(produced: seq<Item>, recorded: seq<Item>, upstreamId: Option<UpstreamId>)
    | Evict
    // the attempt fails for another reason and routing may try elsewhere
    | GiveUpAttempt
    // the response is complete and committed under a new public id
    | Finish(publicId: PublicId, store: bool)
    // the turn fails; `reported` when the failure carries an HTTP error status
    | Fail(reported: bool)
    // a committed turn fails with an HTTP error status while its last events are sent
    | FailAfterCommit
    // the asynchronous tail of a commit
    | FinalId(callback: Callback)
    // the environment: forgetting, disconnecting, other connections storing and deleting responses
    | Forget(session: SessionId, forgotten: UpstreamId)
    | SocketCloses(session: SessionId)
    | StoredElsewhere(publicId: PublicId, response: Stored)
    | Deleted(publicId: PublicId)
    | CloseAll

  predicate Enabled(c: Connection, s: Step) {
    match s
    case Begin(previous, _, _) => c.turn.None? && PreviousItems(c, previous).Some?
    case Refuse(_, _) => c.turn.None?
    case Try(_, _, _) => c.turn.Some? && c.turn.value.attempt.None?
    case Generate(_, _, upstreamId) =>
      InFlight(c) &&
      (match c.turn.value.attempt.value.route
       case OverSocket(session, request) =>
         (request.previous.Some? ==> (session, request.previous.value) in c.remembered) &&
         (upstreamId.Some? ==> (session, upstreamId.value) !in c.conversations)
       case _ => upstreamId.None?)
    case Evict =>
      InFlight(c) && c.turn.value.attempt.value.route.OverSocket? &&
      c.turn.value.attempt.value.route.request.previous.Some?
    case GiveUpAttempt => c.turn.Some? && c.turn.value.attempt.Some?
    case Finish(publicId, _) =>
      c.turn.Some? && c.turn.value.attempt.Some? && c.turn.value.attempt.value.answer.Some? && publicId !in c.issued
    case Fail(_) => c.turn.Some?
    case FailAfterCommit => c.turn.None? && c.finishing.Some?
    case FinalId(callback) => callback in c.pending
    case StoredElsewhere(publicId, _) => publicId !in c.issued
    case _ => true
  }

  predicate InFlight(c: Connection) {
    c.turn.Some? && c.turn.value.attempt.Some? && c.turn.value.attempt.value.answer.None?
  }

  // The conversation the upstream generates from when it is sent `request` on `session`.
  function Served(c: Connection, session: SessionId, request: Request): seq<Item> {
    if request.previous.Some? && (session, request.previous.value) in c.conversations
    then c.conversations[(session, request.previous.value)] + request.rawInput
    else request.rawInput
  }

  function AnswerOf(c: Connection, route: Route, effective: seq<Item>, produced: seq<Item>, recorded: seq<Item>,
                    id: Option<UpstreamId>): Answer
  {
    match route
    case LocalWarmup => Answer(None, [], recorded, None)
    case FullReplay => Answer(Some(effective), produced, recorded, None)
    case OverSocket(session, request) => Answer(Some(Served(c, session, request)), produced, recorded, id)
  }

  // The turn an attempt continues by sending only the delta.
  function ContinuedBy(t: Turn, route: Route): Option<PublicId> {
    if route.OverSocket? && route.request.previous.Some? then t.previous else None
  }

  // What a completed turn is remembered as.
  function EntryOf(t: Turn, a: Attempt, number: nat): Completed
    requires a.answer.Some?
  {
    var answer := a.answer.value;
    Completed(t.effective, t.current, t.generate, answer.recorded, answer.served, answer.produced, ContinuedBy(t, a.route), number,
              if a.route.OverSocket? then Some(a.route.session) else None, answer.upstreamId)
  }

  // A turn over a socket leaves a callback for its final id behind.
  function Callbacks(publicId: PublicId, e: Completed): set<Callback> {
    if e.session.Some? then {Callback(e.session.value, publicId, e.upstreamId)} else {}
  }

  function Invalidated(c: Connection, p: PublicId): Connection {
    c.(state := if c.state.Some? && c.state.value.id == p then None else c.state,
       bindings := AfterInvalidate(c.bindings, p))
  }

  function WithAttempt(c: Connection, a: Option<Attempt>): Connection
    requires c.turn.Some?
  {
    c.(turn := Some(c.turn.value.(attempt := a)))
  }

  function Apply(c: Connection, s: Step): Connection
    requires Enabled(c, s)
  {
    match s
    case Begin(previous, current, generate) =>
      c.(turn := Some(Turn(previous, current, generate, Expand(PreviousItems(c, previous).value + current), None)),
         finishing := None)
    case Refuse(previous, reported) =>
      (if reported && previous.Some? then Invalidated(c, previous.value) else c).(finishing := None)
    case Try(d, handler, connects) =>
      var t := c.turn.value;
      var connected := if connects then Some(c.nextSession) else None;
      var route := RouteOf(c.bindings, d, handler, connected, t.generate, t.previous, t.current, t.effective);
      WithAttempt(c.(bindings := AfterRouting(c.bindings, d, handler, connected), nextSession := c.nextSession + 1),
                  Some(Attempt(d, route, None)))
    case Generate(produced, recorded, upstreamId) =>
      var a := c.turn.value.attempt.value;
      var answer := AnswerOf(c, a.route, c.turn.value.effective, produced, recorded, upstreamId);
      var answered := WithAttempt(c, Some(a.(answer := Some(answer))));
      if a.route.OverSocket? && upstreamId.Some? then
        answered.(conversations := c.conversations[(a.route.session, upstreamId.value) := answer.served.value + produced],
                  remembered := c.remembered + {(a.route.session, upstreamId.value)})
      else answered
    case Evict =>
      var a := c.turn.value.attempt.value;
      var retry := OverSocket(a.route.session, Request(None, c.turn.value.effective));
      WithAttempt(c.(bindings := AfterEviction(c.bindings, a.route.session)), Some(a.(route := retry)))
    case GiveUpAttempt => WithAttempt(c, None)
    case Finish(publicId, store) =>
      var t := c.turn.value;
      var a := t.attempt.value;
      var entry := EntryOf(t, a, |c.log|);
      var response := Stored(entry.effective, entry.output);
      c.(state := Some(ConnectionState(publicId, response)),
         stored := if store then c.stored[publicId := response] else c.stored,
         bindings := AfterCommit(c.bindings, a.deployment),
         turn := None,
         finishing := t.previous,
         pending := c.pending + Callbacks(publicId, entry),
         issued := c.issued + {publicId},
         log := c.log[publicId := entry])
    case Fail(reported) =>
      var p := c.turn.value.previous;
      (if reported && p.Some? then Invalidated(c, p.value) else c).(turn := None, finishing := None)
    case FailAfterCommit => Invalidated(c, c.finishing.value).(finishing := None)
    case FinalId(callback) =>
      c.(pending := c.pending - {callback},
         bindings := AfterFinalId(c.bindings, callback.session, callback.publicId, callback.upstreamId))
    case Forget(session, upstreamId) => c.(remembered := c.remembered - {(session, upstreamId)})
    case SocketCloses(session) => c.(bindings := AfterSocketClose(c.bindings, session))
    case StoredElsewhere(publicId, response) =>
      c.(stored := c.stored[publicId := response], issued := c.issued + {publicId})
    case Deleted(publicId) => c.(stored := c.stored - {publicId})
    case CloseAll => c.(bindings := map[])
  }

  // --- Invariant ----------------------------------------------------------------------------------------

  // A binding's pair is absent, or both halves come from one completed turn on that binding's socket.
  ghost predicate PairFromOneTurn(log: map<PublicId, Completed>, slot: Slot) {
    (slot.latestPublic.None? && slot.latestUpstream.None?) ||
    (slot.latestPublic.Some? && slot.latestUpstream.Some? && slot.latestPublic.value in log &&
     log[slot.latestPublic.value].session == Some(slot.session) &&
     log[slot.latestPublic.value].upstreamId == slot.latestUpstream)
  }

  // What the upstream read: the effective input itself, or the conversation of the continued turn, as that turn
  // left it upstream, followed by the turn's own part.
  ghost predicate ReadRight(log: map<PublicId, Completed>, effective: seq<Item>, current: seq<Item>,
                            continues: Option<PublicId>, served: seq<Item>)
  {
    if continues.None? then served == effective
    else
      continues.value in log &&
      var q := log[continues.value];
      q.served.Some? && served == q.served.value + q.produced + current &&
      effective == Expand(q.effective + q.output + current)
  }

  ghost predicate Linked(log: map<PublicId, Completed>, conversations: map<(SessionId, UpstreamId), seq<Item>>,
                         e: Completed)
  {
    Expand(e.effective) == e.effective && e.number < |log| &&
    (e.served.Some? ==> ReadRight(log, e.effective, e.current, e.continues, e.served.value)) &&
    (e.continues.Some? ==> e.served.Some? && e.continues.value in log && log[e.continues.value].number < e.number) &&
    (e.session.Some? && e.upstreamId.Some? ==>
       e.served.Some? && (e.session.value, e.upstreamId.value) in conversations &&
       conversations[(e.session.value, e.upstreamId.value)] == e.served.value + e.produced)
  }

  ghost predicate Matches(stored: Stored, e: Completed) {
    stored.requestInput == e.effective && stored.output == e.output
  }

  // The effective input of a turn that continues a logged turn extends that turn's conversation.
  ghost predicate Extends(c: Connection, t: Turn) {
    Expand(t.effective) == t.effective &&
    (t.previous.Some? && t.previous.value in c.log ==>
       t.effective == Expand(c.log[t.previous.value].effective + c.log[t.previous.value].output + t.current))
  }

  ghost predicate SendsRight(c: Connection, t: Turn, route: Route) {
    route.OverSocket? ==>
      if route.request.previous.None? then route.request.rawInput == t.effective
      else t.previous.Some? && t.previous.value in c.log && route.request.rawInput == t.current &&
           c.log[t.previous.value].session == Some(route.session) &&
           c.log[t.previous.value].upstreamId == route.request.previous
  }

  ghost predicate AnsweredRight(c: Connection, t: Turn, a: Attempt) {
    a.answer.Some? ==>
      var answer := a.answer.value;
      && (answer.served.Some? ==>
            ReadRight(c.log, t.effective, t.current, ContinuedBy(t, a.route), answer.served.value))
      && (a.route.OverSocket? ==> answer.served.Some?)
      && (a.route.OverSocket? && answer.upstreamId.Some? ==>
            (a.route.session, answer.upstreamId.value) in c.conversations &&
            c.conversations[(a.route.session, answer.upstreamId.value)] == answer.served.value + answer.produced)
  }

  ghost predicate BindingsOk(c: Connection) {
    forall d | d in c.bindings :: PairFromOneTurn(c.log, c.bindings[d])
  }

  ghost predicate LogOk(c: Connection) {
    c.log.Keys <= c.issued && forall p | p in c.log :: Linked(c.log, c.conversations, c.log[p])
  }

  ghost predicate MemoryOk(c: Connection) {
    (c.state.Some? ==> c.state.value.id in c.log && Matches(c.state.value.stored, c.log[c.state.value.id])) &&
    c.stored.Keys <= c.issued &&
    (forall p | p in c.stored && p in c.log :: Matches(c.stored[p], c.log[p])) &&
    c.remembered <= c.conversations.Keys
  }

  ghost predicate PendingOk(c: Connection) {
    forall cb | cb in c.pending ::
      cb.publicId in c.log && c.log[cb.publicId].session == Some(cb.session) &&
      c.log[cb.publicId].upstreamId == cb.upstreamId
  }

  ghost predicate TurnOk(c: Connection) {
    c.turn.Some? ==>
      Extends(c, c.turn.value) &&
      (c.turn.value.attempt.Some? ==>
        SendsRight(c, c.turn.value, c.turn.value.attempt.value.route) &&
        AnsweredRight(c, c.turn.value, c.turn.value.attempt.value))
  }

  ghost predicate Inv(c: Connection) {
    BindingsOk(c) && LogOk(c) && MemoryOk(c) && PendingOk(c) && TurnOk(c)
  }

  lemma InitialOk()
    ensures Inv(INITIAL)
  {
  }

  // --- Preservation, one kind of step at a time -------------------------------------------------------

  lemma BeginKeeps(c: Connection, s: Step)
    requires Inv(c) && s.Begin? && Enabled(c, s)
    ensures Inv(Apply(c, s))
  {
    hide Linked, PairFromOneTurn;
    var before := PreviousItems(c, s.previous).value;
    ExpandTwice(before + s.current);
    if s.previous.Some? && s.previous.value in c.log {
      var e := c.log[s.previous.value];
      assert before == e.effective + e.output;
    }
  }

  lemma TryKeeps(c: Connection, s: Step)
    requires Inv(c) && s.Try? && Enabled(c, s)
    ensures Inv(Apply(c, s))
  {
    hide Linked;
    var c' := Apply(c, s);
    forall d | d in c'.bindings
      ensures PairFromOneTurn(c'.log, c'.bindings[d])
    {
      if d in c.bindings { assert PairFromOneTurn(c.log, c.bindings[d]); }
    }
    if c'.turn.value.attempt.value.route.OverSocket? {
      assert PairFromOneTurn(c'.log, c'.bindings[s.deployment]);
    }
  }

  // The heart of the argument: the previous id of a delta names the conversation of the turn it continues.
  lemma ServedIsRead(c: Connection, t: Turn, session: SessionId, request: Request)
    requires LogOk(c) && Extends(c, t) && SendsRight(c, t, OverSocket(session, request))
    ensures ReadRight(c.log, t.effective, t.current, ContinuedBy(t, OverSocket(session, request)),
                      Served(c, session, request))
  {
    hide Expand;
    if request.previous.Some? {
      assert Linked(c.log, c.conversations, c.log[t.previous.value]);
    }
  }

  lemma GenerateKeeps(c: Connection, s: Step)
    requires Inv(c) && s.Generate? && Enabled(c, s)
    ensures Inv(Apply(c, s))
  {
    GenerateTouches(c, s);
    GenerateAnswers(c, s);
    var c' := Apply(c, s);
    hide Apply, Enabled, Linked, Extends, SendsRight, AnsweredRight, PairFromOneTurn, Matches;
    forall p | p in c.log
      ensures Linked(c'.log, c'.conversations, c'.log[p])
    {
      assert Linked(c.log, c.conversations, c.log[p]);
      MoreConversations(c.log, c.conversations, c'.conversations, c.log[p]);
    }
  }

  // Generating answers the turn and may add one conversation; the rest stays.
  lemma GenerateTouches(c: Connection, s: Step)
    requires MemoryOk(c) && s.Generate? && Enabled(c, s)
    ensures var c' := Apply(c, s);
            && c'.(turn := c.turn, conversations := c.conversations, remembered := c.remembered) == c
            && c'.turn.Some? && c'.turn.value.attempt.Some?
            && c'.turn.value == c.turn.value.(attempt := c'.turn.value.attempt)
            && c'.remembered <= c'.conversations.Keys
            && forall k | k in c.conversations :: k in c'.conversations && c'.conversations[k] == c.conversations[k]
  {
    hide Expand, Matches;
  }

  lemma MoreConversations(log: map<PublicId, Completed>, conversations: map<(SessionId, UpstreamId), seq<Item>>,
                          more: map<(SessionId, UpstreamId), seq<Item>>, e: Completed)
    requires Linked(log, conversations, e)
    requires forall k | k in conversations :: k in more && more[k] == conversations[k]
    ensures Linked(log, more, e)
  {
    hide Expand, ReadRight;
  }

  lemma GenerateAnswers(c: Connection, s: Step)
    requires LogOk(c) && TurnOk(c) && s.Generate? && Enabled(c, s)
    ensures TurnOk(Apply(c, s))
  {
    hide Expand, ReadRight, Linked;
    var t := c.turn.value;
    var route := t.attempt.value.route;
    if route.OverSocket? {
      ServedIsRead(c, t, route.session, route.request);
    } else {
      ReadAsSent(c.log, t);
    }
  }

  lemma ReadAsSent(log: map<PublicId, Completed>, t: Turn)
    ensures ReadRight(log, t.effective, t.current, None, t.effective)
  {
  }

  lemma EvictKeeps(c: Connection, s: Step)
    requires Inv(c) && s.Evict? && Enabled(c, s)
    ensures Inv(Apply(c, s))
  {
    hide Linked;
    var c' := Apply(c, s);
    forall d | d in c'.bindings
      ensures PairFromOneTurn(c'.log, c'.bindings[d])
    {
      assert PairFromOneTurn(c.log, c.bindings[d]);
    }
  }

  lemma FinishKeeps(c: Connection, s: Step)
    requires Inv(c) && s.Finish? && Enabled(c, s)
    ensures Inv(Apply(c, s))
  {
    var c' := Apply(c, s);
    var t := c.turn.value;
    var e := EntryOf(t, t.attempt.value, |c.log|);
    FinishTouches(c, s);
    NewEntryLinked(c, t, t.attempt.value, s.publicId);
    assert c'.turn.None? && e.effective == t.effective;
    hide Apply, LogOk, BindingsOk, PendingOk, MemoryOk, EntryOf, Linked, Callbacks;
    LogGrows(c, c', s.publicId, e);
    BindingsStay(c, c');
    PendingGrows(c, c', s.publicId, e);
    MemoryGrows(c, c', s.publicId, e);
  }

  lemma FinishTouches(c: Connection, s: Step)
    requires s.Finish? && Enabled(c, s)
    ensures var c' := Apply(c, s);
            var e := EntryOf(c.turn.value, c.turn.value.attempt.value, |c.log|);
            var response := Stored(e.effective, e.output);
            && c'.log == c.log[s.publicId := e] && c'.conversations == c.conversations
            && c'.issued == c.issued + {s.publicId} && c'.remembered == c.remembered
            && c'.state == Some(ConnectionState(s.publicId, response))
            && (c'.stored == c.stored || c'.stored == c.stored[s.publicId := response])
            && c'.pending == c.pending + Callbacks(s.publicId, e)
            && forall d | d in c'.bindings :: d in c.bindings && c'.bindings[d] == c.bindings[d]
  {
    hide EntryOf, Callbacks;
  }

  lemma LogGrows(c: Connection, c': Connection, p: PublicId, e: Completed)
    requires LogOk(c) && p !in c.issued && c'.log == c.log[p := e] && c'.issued == c.issued + {p}
    requires c'.conversations == c.conversations && Linked(c'.log, c.conversations, e)
    ensures LogOk(c')
  {
    hide Linked;
    forall x | x in c.log
      ensures Linked(c'.log, c'.conversations, c'.log[x])
    {
      LinkSurvives(c.log, c'.log, c.conversations, c.log[x]);
    }
  }

  lemma BindingsStay(c: Connection, c': Connection)
    requires BindingsOk(c) && forall d | d in c'.bindings :: d in c.bindings && c'.bindings[d] == c.bindings[d]
    requires forall p | p in c.log :: p in c'.log && c'.log[p] == c.log[p]
    ensures BindingsOk(c')
  {
    hide PairFromOneTurn;
    forall d | d in c'.bindings
      ensures PairFromOneTurn(c'.log, c'.bindings[d])
    {
      PairSurvives(c.log, c'.log, c.bindings[d]);
    }
  }

  lemma PendingGrows(c: Connection, c': Connection, p: PublicId, e: Completed)
    requires PendingOk(c) && p !in c.log && c'.log == c.log[p := e] && c'.pending == c.pending + Callbacks(p, e)
    ensures PendingOk(c')
  {
    forall cb | cb in c'.pending
      ensures cb.publicId in c'.log && c'.log[cb.publicId].session == Some(cb.session)
      ensures c'.log[cb.publicId].upstreamId == cb.upstreamId
    {
      if cb in c.pending { assert cb.publicId in c.log; }
    }
  }

  lemma MemoryGrows(c: Connection, c': Connection, p: PublicId, e: Completed)
    requires MemoryOk(c) && LogOk(c) && p !in c.issued && c'.log == c.log[p := e] && c'.issued == c.issued + {p}
    requires c'.state == Some(ConnectionState(p, Stored(e.effective, e.output)))
    requires c'.stored == c.stored || c'.stored == c.stored[p := Stored(e.effective, e.output)]
    requires c'.conversations == c.conversations && c'.remembered == c.remembered
    ensures MemoryOk(c')
  {
    hide Linked;
    assert forall x | x in c.log :: x in c.issued && c'.log[x] == c.log[x];
  }

  // A longer log keeps what its entries say.
  lemma LinkSurvives(log: map<PublicId, Completed>, log': map<PublicId, Completed>,
                     conversations: map<(SessionId, UpstreamId), seq<Item>>, e: Completed)
    requires Linked(log, conversations, e) && |log| <= |log'|
    requires forall p | p in log :: p in log' && log'[p] == log[p]
    ensures Linked(log', conversations, e)
  {
    hide Expand;
  }

  lemma NewEntryLinked(c: Connection, t: Turn, a: Attempt, p: PublicId)
    requires LogOk(c) && Extends(c, t) && SendsRight(c, t, a.route) && AnsweredRight(c, t, a) && a.answer.Some?
    requires p !in c.log
    ensures var e := EntryOf(t, a, |c.log|); Linked(c.log[p := e], c.conversations, e)
  {
    hide Expand;
    var e := EntryOf(t, a, |c.log|);
    if e.continues.Some? { assert Linked(c.log, c.conversations, c.log[e.continues.value]); }
  }

  lemma PairSurvives(log: map<PublicId, Completed>, log': map<PublicId, Completed>, slot: Slot)
    requires PairFromOneTurn(log, slot)
    requires forall p | p in log :: p in log' && log'[p] == log[p]
    ensures PairFromOneTurn(log', slot)
  {
  }

  lemma InvalidatingKeeps(c: Connection, p: PublicId)
    requires Inv(c)
    ensures Inv(Invalidated(c, p))
  {
    hide Linked;
    var c' := Invalidated(c, p);
    forall d | d in c'.bindings
      ensures PairFromOneTurn(c'.log, c'.bindings[d])
    {
      assert PairFromOneTurn(c.log, c.bindings[d]);
    }
  }

  lemma DroppingTheTurnKeeps(c: Connection)
    requires Inv(c)
    ensures Inv(c.(turn := None, finishing := None)) && Inv(c.(finishing := None))
  {
    hide Linked, PairFromOneTurn, Matches;
  }

  lemma FailuresKeep(c: Connection, s: Step)
    requires Inv(c) && (s.Refuse? || s.Fail? || s.FailAfterCommit?) && Enabled(c, s)
    ensures Inv(Apply(c, s))
  {
    hide Inv, Invalidated;
    var p := if s.Refuse? then s.previous else if s.Fail? then c.turn.value.previous else c.finishing;
    DroppingTheTurnKeeps(c);
    if p.Some? {
      InvalidatingKeeps(c, p.value);
      DroppingTheTurnKeeps(Invalidated(c, p.value));
    }
  }

  lemma OthersKeep(c: Connection, s: Step)
    requires Inv(c) && Enabled(c, s)
    requires s.GiveUpAttempt? || s.FinalId? || s.Forget? || s.SocketCloses? || s.StoredElsewhere? || s.Deleted? ||
             s.CloseAll?
    ensures Inv(Apply(c, s))
  {
    hide Linked;
    var c' := Apply(c, s);
    forall d | d in c'.bindings
      ensures PairFromOneTurn(c'.log, c'.bindings[d])
    {
      assert PairFromOneTurn(c.log, c.bindings[d]);
    }
  }

  lemma EveryStepKeeps(c: Connection, s: Step)
    requires Inv(c) && Enabled(c, s)
    ensures Inv(Apply(c, s))
  {
    hide Inv, Apply, Enabled;
    match s
    case Begin(_, _, _) => BeginKeeps(c, s);
    case Try(_, _, _) => TryKeeps(c, s);
    case Generate(_, _, _) => GenerateKeeps(c, s);
    case Evict => EvictKeeps(c, s);
    case Finish(_, _) => FinishKeeps(c, s);
    case Refuse(_, _) => FailuresKeep(c, s);
    case Fail(_) => FailuresKeep(c, s);
    case FailAfterCommit => FailuresKeep(c, s);
    case _ => OthersKeep(c, s);
  }

  // --- Runs ---------------------------------------------------------------------------------------------

  ghost predicate IsRun(states: seq<Connection>, steps: seq<Step>) {
    |states| == |steps| + 1 && states[0] == INITIAL &&
    forall i | 0 <= i < |steps| :: Enabled(states[i], steps[i]) && states[i + 1] == Apply(states[i], steps[i])
  }

  lemma {:induction false} ReachableStatesOk(states: seq<Connection>, steps: seq<Step>, k: nat)
    requires IsRun(states, steps) && k < |states|
    ensures Inv(states[k])
  {
    if k == 0 {
      InitialOk();
    } else {
      ReachableStatesOk(states, steps, k - 1);
      EveryStepKeeps(states[k - 1], steps[k - 1]);
    }
  }

  // --- What the upstream reads against what the gateway holds -------------------------------------------

  // The upstream read the gateway's effective input, up to opening what is sealed.
  ghost predicate Agrees(e: Completed) {
    e.served.Some? ==> Expand(e.served.value) == e.effective
  }

  // The upstream read it item for item.
  ghost predicate Same(e: Completed) {
    e.served.Some? ==> e.served.value == e.effective
  }

  // What was recorded of a turn is what was produced, up to opening.
  ghost predicate Kept(e: Completed) {
    Expand(e.produced) == Expand(e.output)
  }

  ghost predicate NothingSealed(items: seq<Item>) {
    forall i | 0 <= i < |items| :: !Expandable(items[i])
  }

  // In every reachable state a binding's pair comes from one completed turn, and the upstream keeps under it
  // what that turn read and produced; if the turn agreed and was recorded as produced, that is the gateway's
  // conversation of the pair's public response.
  lemma PairsNameOneConversation(states: seq<Connection>, steps: seq<Step>, k: nat, d: DeploymentId)
    requires IsRun(states, steps) && k < |states| && d in states[k].bindings
    ensures var c := states[k];
            var slot := c.bindings[d];
            && (slot.latestPublic.Some? <==> slot.latestUpstream.Some?)
            && (slot.latestPublic.Some? ==>
                  slot.latestPublic.value in c.log &&
                  (slot.session, slot.latestUpstream.value) in c.conversations &&
                  var e := c.log[slot.latestPublic.value];
                  var kept := c.conversations[(slot.session, slot.latestUpstream.value)];
                  && e.served.Some? && kept == e.served.value + e.produced
                  && (Agrees(e) && Kept(e) ==> Expand(kept) == Expand(e.effective + e.output)))
  {
    ReachableStatesOk(states, steps, k);
    var c := states[k];
    var slot := c.bindings[d];
    assert PairFromOneTurn(c.log, slot);
    if slot.latestPublic.Some? {
      var e := c.log[slot.latestPublic.value];
      assert Linked(c.log, c.conversations, e);
      ExpandConcat(e.served.value, e.produced);
      ExpandConcat(e.effective, e.output);
    }
  }

  // One turn that sent only its own part, against the turn it continues.
  lemma DeltaTurn(q: Completed, e: Completed)
    requires q.served.Some? && e.served.Some? && Expand(q.effective) == q.effective
    requires e.served.value == q.served.value + q.produced + e.current
    requires e.effective == Expand(q.effective + q.output + e.current)
    ensures Agrees(e) <==> Expand(q.served.value + q.produced) == Expand(q.effective + q.output)
    ensures Agrees(q) ==> (Agrees(e) <==> Kept(q))
    ensures Same(e) <==> q.served.value + q.produced == Expand(q.effective + q.output) && NothingSealed(e.current)
    ensures Same(q) ==> (Same(e) <==> q.produced == Expand(q.output) && NothingSealed(e.current))
    ensures q.produced == q.output ==>
              (Same(e) <==> Same(q) && NothingSealed(q.output) && NothingSealed(e.current))
  {
    var read, held := q.served.value + q.produced, q.effective + q.output;
    ExpandConcat(read, e.current);
    ExpandConcat(held, e.current);
    ExpandConcat(q.served.value, q.produced);
    ExpandConcat(q.effective, q.output);
    ExpandIsIdentityIffNothingSealed(e.current);
    ExpandIsIdentityIffNothingSealed(q.output);
    SameTail(Expand(read), Expand(held), Expand(e.current), Expand(e.current));
    SameTail(read, Expand(held), e.current, Expand(e.current));
    SameHead(q.effective, Expand(q.produced), Expand(q.output));
    SameHead(q.effective, q.produced, Expand(q.output));
    SameTail(q.served.value, q.effective, q.output, Expand(q.output));
  }

  lemma SameTail(a: seq<Item>, b: seq<Item>, x: seq<Item>, y: seq<Item>)
    requires |x| == |y|
    ensures a + x == b + y <==> a == b && x == y
  {
    if a + x == b + y {
      assert |a + x| == |b + y|;
      assert (a + x)[..|a|] == a && (b + y)[..|b|] == b;
      assert (a + x)[|a|..] == x && (b + y)[|b|..] == y;
    }
  }

  lemma SameHead(a: seq<Item>, x: seq<Item>, y: seq<Item>)
    ensures a + x == a + y <==> x == y
  {
    if a + x == a + y {
      assert (a + x)[|a|..] == x && (a + y)[|a|..] == y;
    }
  }

  lemma {:induction false} AgreesIfKept(c: Connection, p: PublicId)
    requires LogOk(c) && p in c.log
    requires forall x | x in c.log && c.log[x].continues.Some? :: Kept(c.log[c.log[x].continues.value])
    ensures Agrees(c.log[p])
    decreases c.log[p].number
  {
    hide Expand, Kept;
    var e := c.log[p];
    assert Linked(c.log, c.conversations, e);
    if e.continues.Some? {
      AgreesIfKept(c, e.continues.value);
      assert Linked(c.log, c.conversations, c.log[e.continues.value]);
      DeltaTurn(c.log[e.continues.value], e);
    }
  }

  lemma {:induction false} SameIfOpen(c: Connection, p: PublicId)
    requires LogOk(c) && p in c.log
    requires forall x | x in c.log && c.log[x].continues.Some? :: OpenDelta(c, x)
    ensures Same(c.log[p])
    decreases c.log[p].number
  {
    hide Expand;
    var e := c.log[p];
    assert Linked(c.log, c.conversations, e);
    if e.continues.Some? {
      SameIfOpen(c, e.continues.value);
      assert Linked(c.log, c.conversations, c.log[e.continues.value]);
      assert OpenDelta(c, p);
      DeltaTurn(c.log[e.continues.value], e);
    }
  }

  // A turn sent as a delta, where what was produced before it is the opened form of what was recorded and
  // its own part holds nothing sealed.
  ghost predicate OpenDelta(c: Connection, p: PublicId)
    requires p in c.log
  {
    var e := c.log[p];
    e.continues.Some? && e.continues.value in c.log &&
    c.log[e.continues.value].produced == Expand(c.log[e.continues.value].output) && NothingSealed(e.current)
  }

  // Continuation refines replay: in every run, all completed turns, on whatever route, were generated from
  // conversations that open to the gateway's effective input if and only if every turn that was continued by
  // a delta was recorded as produced, up to opening. They are the same item for item if and only if what was
  // continued was produced in opened form and no delta carried a sealed item.
  lemma ContinuationRefinesReplay(states: seq<Connection>, steps: seq<Step>, k: nat)
    requires IsRun(states, steps) && k < |states|
    ensures var c := states[k];
            && (forall p | p in c.log && c.log[p].continues.Some? :: c.log[p].continues.value in c.log)
            && ((forall p | p in c.log :: Agrees(c.log[p])) <==>
                (forall p | p in c.log && c.log[p].continues.Some? :: Kept(c.log[c.log[p].continues.value])))
            && ((forall p | p in c.log :: Same(c.log[p])) <==>
                (forall p | p in c.log && c.log[p].continues.Some? :: OpenDelta(c, p)))
  {
    ReachableStatesOk(states, steps, k);
    var c := states[k];
    forall p | p in c.log && c.log[p].continues.Some?
      ensures c.log[p].continues.value in c.log
      ensures Agrees(c.log[p]) && Agrees(c.log[c.log[p].continues.value]) ==> Kept(c.log[c.log[p].continues.value])
      ensures Same(c.log[p]) && Same(c.log[c.log[p].continues.value]) ==> OpenDelta(c, p)
    {
      DeltaEntry(c, p);
    }
    hide Agrees, Kept, Same, OpenDelta, Linked;
    if forall p | p in c.log && c.log[p].continues.Some? :: Kept(c.log[c.log[p].continues.value]) {
      forall p | p in c.log
        ensures Agrees(c.log[p])
      {
        AgreesIfKept(c, p);
      }
    }
    if forall p | p in c.log && c.log[p].continues.Some? :: OpenDelta(c, p) {
      forall p | p in c.log
        ensures Same(c.log[p])
      {
        SameIfOpen(c, p);
      }
    }
  }

  lemma DeltaEntry(c: Connection, p: PublicId)
    requires LogOk(c) && p in c.log && c.log[p].continues.Some?
    ensures var e := c.log[p];
            && e.continues.value in c.log
            && var q := c.log[e.continues.value];
            && (Agrees(q) ==> (Agrees(e) <==> Kept(q)))
            && (Same(q) ==> (Same(e) <==> OpenDelta(c, p)))
            && (q.produced == q.output ==>
                  (Same(e) <==> Same(q) && NothingSealed(q.output) && NothingSealed(e.current)))
  {
    hide Expand;
    var e := c.log[p];
    assert Linked(c.log, c.conversations, e);
    assert Linked(c.log, c.conversations, c.log[e.continues.value]);
    DeltaTurn(c.log[e.continues.value], e);
  }

  // The effective input itself is the previous response's conversation followed by the turn's input.
  lemma TurnsChain(states: seq<Connection>, steps: seq<Step>, k: nat)
    requires IsRun(states, steps) && k < |steps| && steps[k].Begin? && steps[k].previous.Some?
    requires steps[k].previous.value in states[k].log
    ensures states[k + 1].turn.Some?
    ensures var e := states[k].log[steps[k].previous.value];
            states[k + 1].turn.value.effective == Expand(e.effective + e.output + steps[k].current)
  {
    ReachableStatesOk(states, steps, k);
    var c := states[k];
    var e := c.log[steps[k].previous.value];
    assert PreviousItems(c, steps[k].previous).value == e.effective + e.output;
  }
}
