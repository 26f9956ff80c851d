// How the turns of a connection are carried, and what a failed one leaves behind, over whole runs.
module TurnRoutes {
  import opened Prelude
  import opened ResponsesSessions
  import opened Continuation
  import opened CommittedDeployment

  // --- Turns are answered by an upstream ------------------------------------------------------------------

  ghost predicate AttemptFits(t: Turn) {
    t.attempt.Some? ==>
      var a := t.attempt.value;
      && (a.route.LocalWarmup? ==> !t.generate)
      && (a.route.FullReplay? ==> t.generate)
      && (a.answer.Some? ==> (a.answer.value.served.None? <==> a.route.LocalWarmup?))
  }

  // No upstream served a turn exactly if it was a warm-up that no socket carried.
  ghost predicate UnservedIsWarmup(e: Completed) {
    e.served.None? <==> !e.generate && e.session.None?
  }

  ghost predicate Answered(c: Connection) {
    (c.turn.Some? ==> AttemptFits(c.turn.value)) && forall p | p in c.log :: UnservedIsWarmup(c.log[p])
  }

  lemma TryFits(c: Connection, s: Step)
    requires Answered(c) && s.Try? && Enabled(c, s)
    ensures Answered(Apply(c, s))
  {
    hide UnservedIsWarmup;
  }

  lemma GenerateFits(c: Connection, s: Step)
    requires Answered(c) && s.Generate? && Enabled(c, s)
    ensures Answered(Apply(c, s))
  {
    hide UnservedIsWarmup, Served;
  }

  lemma FinishFits(c: Connection, s: Step)
    requires Answered(c) && s.Finish? && Enabled(c, s)
    ensures Answered(Apply(c, s))
  {
    hide AfterCommit, Callbacks;
  }

  lemma OthersFit(c: Connection, s: Step)
    requires Answered(c) && Enabled(c, s) && !s.Try? && !s.Generate? && !s.Finish?
    ensures Answered(Apply(c, s))
  {
    hide UnservedIsWarmup, Expand, AfterEviction, AfterInvalidate, AfterFinalId, AfterSocketClose, PreviousItems;
  }

  lemma {:induction false} AnsweredInEveryRun(states: seq<Connection>, steps: seq<Step>, k: nat)
    requires IsRun(states, steps) && k < |states|
    ensures Answered(states[k])
  {
    hide Apply, Enabled;
    if k > 0 {
      var c, s := states[k - 1], steps[k - 1];
      AnsweredInEveryRun(states, steps, k - 1);
      hide Answered;
      if s.Try? {
        TryFits(c, s);
      } else if s.Generate? {
        GenerateFits(c, s);
      } else if s.Finish? {
        FinishFits(c, s);
      } else {
        OthersFit(c, s);
      }
    }
  }

  // In every run a completed turn was served by no upstream exactly if it was a warm-up without a socket; every
  // turn that was to generate was generated from a conversation the upstream read.
  lemma GeneratingTurnsAreServed(states: seq<Connection>, steps: seq<Step>, k: nat, p: PublicId)
    requires IsRun(states, steps) && k < |states| && p in states[k].log
    ensures var e := states[k].log[p];
            && (e.served.None? <==> !e.generate && e.session.None?)
            && (e.generate ==> e.served.Some?)
  {
    AnsweredInEveryRun(states, steps, k);
  }

  // What a turn is remembered to have asked for is what its message asked for.
  ghost predicate AskedBy(steps: seq<Step>, k: nat, i: nat, previous: Option<PublicId>, current: seq<Item>, generate: bool)
    requires k <= |steps|
  {
    i < k && steps[i] == Begin(previous, current, generate) &&
    forall j | i < j < k :: !steps[j].Begin? && !steps[j].Finish? && !steps[j].Fail?
  }

  lemma {:induction false} TurnsAreAsAsked(states: seq<Connection>, steps: seq<Step>, k: nat) returns (i: nat)
    requires IsRun(states, steps) && k < |states| && states[k].turn.Some?
    ensures var t := states[k].turn.value; AskedBy(steps, k, i, t.previous, t.current, t.generate)
  {
    assert states[k] == Apply(states[k - 1], steps[k - 1]);
    TurnStep(states[k - 1], steps[k - 1]);
    hide Apply, Enabled;
    if steps[k - 1].Begin? {
      i := k - 1;
    } else {
      i := TurnsAreAsAsked(states, steps, k - 1);
    }
  }

  lemma TurnStep(c: Connection, s: Step)
    requires Enabled(c, s)
    ensures var c' := Apply(c, s);
            c'.turn.Some? ==>
              && !s.Finish? && !s.Fail?
              && if s.Begin? then
                   c'.turn.value.previous == s.previous && c'.turn.value.current == s.current &&
                   c'.turn.value.generate == s.generate
                 else c.turn.Some? && c'.turn.value.previous == c.turn.value.previous &&
                      c'.turn.value.current == c.turn.value.current && c'.turn.value.generate == c.turn.value.generate
  {
    hide Expand, Served, PreviousItems, AfterInvalidate, AfterEviction, AfterFinalId, AfterSocketClose, AfterRouting, RouteOf;
  }

  // A completed turn's memory holds what the last response.create message before it asked for.
  lemma CompletedTurnsAreAsAsked(states: seq<Connection>, steps: seq<Step>, k: nat) returns (i: nat)
    requires IsRun(states, steps) && k < |steps| && steps[k].Finish?
    ensures steps[k].publicId in states[k + 1].log
    ensures var e := states[k + 1].log[steps[k].publicId];
            && i < k && steps[i].Begin? && steps[i].current == e.current && steps[i].generate == e.generate
            && (e.continues.Some? ==> e.continues == steps[i].previous)
            && forall j | i < j < k :: !steps[j].Begin? && !steps[j].Finish? && !steps[j].Fail?
  {
    i := TurnsAreAsAsked(states, steps, k);
    var c := states[k];
    assert states[k + 1] == Apply(c, steps[k]);
    FinishTouches(c, steps[k]);
    hide Apply;
  }

  // --- Which way a turn is carried ------------------------------------------------------------------------

  predicate OpenBinding(c: Connection, d: DeploymentId) {
    d in c.bindings && !c.bindings[d].closed
  }

  // A socket carries an attempt exactly if the adapter has a handler and a binding is open or can be opened, and
  // that socket is open; otherwise generating turns go upstream whole and warm-ups stay here.
  lemma SocketsCarryWhatTheyCan(states: seq<Connection>, steps: seq<Step>, k: nat)
    requires IsRun(states, steps) && k < |steps| && steps[k].Try?
    ensures states[k + 1].turn.Some? && states[k + 1].turn.value.attempt.Some?
    ensures var before, after, d := states[k], states[k + 1], steps[k].deployment;
            var route := after.turn.value.attempt.value.route;
            && (route.OverSocket? <==> steps[k].handler && (OpenBinding(before, d) || steps[k].connects))
            && (route.OverSocket? ==> OpenBinding(after, d) && after.bindings[d].session == route.session)
            && (route.OverSocket? && !OpenBinding(before, d) ==>
                  forall x | x in before.bindings && x != d :: after.bindings[x] == before.bindings[x])
            && (route.OverSocket? && OpenBinding(before, d) ==> after.bindings == before.bindings)
            && (!route.OverSocket? ==> (route.FullReplay? <==> after.turn.value.generate))
  {
    assert states[k + 1] == Apply(states[k], steps[k]);
  }

  // The delta goes out exactly if the open binding still holds the id of the turn it continues.
  lemma DeltasGoOutWhenTheyCan(states: seq<Connection>, steps: seq<Step>, k: nat)
    requires IsRun(states, steps) && k < |steps| && steps[k].Try?
    requires steps[k].handler && (OpenBinding(states[k], steps[k].deployment) || steps[k].connects)
    ensures states[k + 1].turn.Some? && states[k + 1].turn.value.attempt.Some?
    ensures states[k + 1].turn.value.attempt.value.route.OverSocket?
    ensures var before, t, d := states[k], states[k + 1].turn.value, steps[k].deployment;
            var sent := t.attempt.value.route.request;
            && (sent.previous.Some? <==> t.previous.Some? && OpenBinding(before, d) && before.bindings[d].latestPublic == t.previous)
            && sent.rawInput == (if sent.previous.Some? then t.current else t.effective)
  {
    assert states[k + 1] == Apply(states[k], steps[k]);
    ReachableStatesOk(states, steps, k);
    var c, d := states[k], steps[k].deployment;
    if d in c.bindings { assert PairFromOneTurn(c.log, c.bindings[d]); }
    hide LogOk, MemoryOk, PendingOk, TurnOk, Expand;
  }

  // When the upstream has forgotten the previous id, the turn goes out whole on the same socket, whose binding loses
  // its pair; no other binding changes.
  lemma EvictionSendsTheWholeTurn(states: seq<Connection>, steps: seq<Step>, k: nat)
    requires IsRun(states, steps) && k < |steps| && steps[k].Evict?
    ensures var before, after := states[k], states[k + 1];
            var session := before.turn.value.attempt.value.route.session;
            && after.turn.Some? && after.turn.value.attempt.Some?
            && after.turn.value.attempt.value.route == OverSocket(session, Request(None, before.turn.value.effective))
            && after.bindings.Keys == before.bindings.Keys
            && forall d | d in before.bindings ::
                 if before.bindings[d].session == session
                 then after.bindings[d] == Slot(session, before.bindings[d].closed, None, None)
                 else after.bindings[d] == before.bindings[d]
  {
    assert states[k + 1] == Apply(states[k], steps[k]);
  }

  ghost predicate Dead(c: Connection, session: SessionId) {
    session < c.nextSession && forall d | d in c.bindings && c.bindings[d].session == session :: c.bindings[d].closed
  }

  lemma DeadStaysDead(c: Connection, s: Step, session: SessionId)
    requires Enabled(c, s) && Dead(c, session)
    ensures Dead(Apply(c, s), session)
  {
    hide Expand, Served, PreviousItems, RouteOf;
  }

  lemma DeadIsNotTried(c: Connection, s: Step, session: SessionId)
    requires Enabled(c, s) && s.Try? && Dead(c, session)
    ensures var a := Apply(c, s).turn.value.attempt.value; a.route.OverSocket? ==> a.route.session != session
  {
  }

  lemma {:induction false} DeadInEveryRun(states: seq<Connection>, steps: seq<Step>, k: nat, n: nat, session: SessionId)
    requires IsRun(states, steps) && k < n < |states| && Dead(states[k + 1], session)
    ensures Dead(states[n], session)
    decreases n
  {
    hide Apply, Enabled;
    if n > k + 1 {
      DeadInEveryRun(states, steps, k, n - 1, session);
      DeadStaysDead(states[n - 1], steps[n - 1], session);
    }
  }

  // The socket of a binding that closes carries no later attempt, and no other binding notices.
  lemma ClosedSocketsCarryNothing(states: seq<Connection>, steps: seq<Step>, k: nat, n: nat, d: DeploymentId)
    requires IsRun(states, steps) && k < n < |steps| && steps[n].Try?
    requires d in states[k].bindings && steps[k] == SocketCloses(states[k].bindings[d].session)
    ensures var session := states[k].bindings[d].session;
            && states[k + 1].bindings.Keys == states[k].bindings.Keys
            && (forall x | x in states[k].bindings && states[k].bindings[x].session != session ::
                  states[k + 1].bindings[x] == states[k].bindings[x])
            && states[n + 1].turn.Some? && states[n + 1].turn.value.attempt.Some?
            && var route := states[n + 1].turn.value.attempt.value.route;
               route.OverSocket? ==> route.session != session
  {
    var session := states[k].bindings[d].session;
    OwnedInEveryRun(states, steps, k);
    assert states[k + 1] == Apply(states[k], steps[k]);
    assert Dead(states[k + 1], session);
    DeadInEveryRun(states, steps, k, n, session);
    assert states[n + 1] == Apply(states[n], steps[n]);
    DeadIsNotTried(states[n], steps[n], session);
    hide Dead, Owned;
  }

  // A closed slot stays closed and keeps or loses its pair.
  ghost predicate GainsNothing(before: Slot, after: Slot) {
    after.closed && (after.latestPublic.Some? ==>
                       after.latestPublic == before.latestPublic && after.latestUpstream == before.latestUpstream)
  }

  lemma ClosedSlotsGainNothing(c: Connection, s: Step, d: DeploymentId)
    requires Enabled(c, s) && !s.Try? && d in c.bindings && c.bindings[d].closed && d in Apply(c, s).bindings
    ensures GainsNothing(c.bindings[d], Apply(c, s).bindings[d])
  {
    hide Expand, Served, PreviousItems, RouteOf, AnswerOf, EntryOf, Callbacks;
  }

  // An id that arrives late is not kept for a closed socket.
  lemma ClosedSocketsGainNoId(states: seq<Connection>, steps: seq<Step>, k: nat, d: DeploymentId)
    requires IsRun(states, steps) && k < |steps| && !steps[k].Try?
    requires d in states[k].bindings && states[k].bindings[d].closed && d in states[k + 1].bindings
    ensures GainsNothing(states[k].bindings[d], states[k + 1].bindings[d])
  {
    hide Apply, Enabled;
    ClosedSlotsGainNothing(states[k], steps[k], d);
  }

  // --- What a failure leaves behind -----------------------------------------------------------------------

  // The previous response named by a turn that fails with an HTTP error in this step.
  function FailedPrevious(c: Connection, s: Step): Option<PublicId>
    requires Enabled(c, s)
  {
    match s
    case Refuse(previous, reported) => if reported then previous else None
    case Fail(reported) => if reported then c.turn.value.previous else None
    case FailAfterCommit => c.finishing
    case _ => None
  }

  ghost predicate NoPairNames(c: Connection, p: PublicId) {
    forall d | d in c.bindings :: c.bindings[d].latestPublic != Some(p)
  }

  ghost predicate Forgotten(before: Connection, after: Connection, p: PublicId) {
    && NoPairNames(after, p) && after.bindings.Keys == before.bindings.Keys
    && (forall d | d in before.bindings && before.bindings[d].latestPublic != Some(p) ::
          after.bindings[d] == before.bindings[d])
    && (forall d | d in before.bindings ::
          after.bindings[d].session == before.bindings[d].session &&
          after.bindings[d].closed == before.bindings[d].closed &&
          (after.bindings[d].latestPublic.Some? <==> after.bindings[d].latestUpstream.Some?))
    && (after.state.None? || after.state.value.id != p)
    && (before.state.Some? && before.state.value.id != p ==> after.state == before.state)
    && after.log == before.log && after.stored == before.stored
  }

  lemma InvalidatingForgets(c: Connection, p: PublicId)
    requires BindingsOk(c)
    ensures Forgotten(c, Invalidated(c, p), p)
  {
    forall d | d in c.bindings
      ensures c.bindings[d].latestPublic.Some? <==> c.bindings[d].latestUpstream.Some?
    {
      assert PairFromOneTurn(c.log, c.bindings[d]);
    }
  }

  lemma FailingInvalidates(c: Connection, s: Step, p: PublicId)
    requires Enabled(c, s) && FailedPrevious(c, s) == Some(p)
    ensures Apply(c, s) == Invalidated(c, p).(turn := None, finishing := None)
  {
    hide AfterInvalidate;
  }

  // A reported failure drops every pair that names the previous response of the turn, and nothing else of a
  // binding; the connection forgets that response if it is its latest.
  lemma FailureForgetsThePrevious(states: seq<Connection>, steps: seq<Step>, k: nat, p: PublicId)
    requires IsRun(states, steps) && k < |steps| && FailedPrevious(states[k], steps[k]) == Some(p)
    ensures Forgotten(states[k], states[k + 1], p)
  {
    var c := states[k];
    ReachableStatesOk(states, steps, k);
    InvalidatingForgets(c, p);
    FailingInvalidates(c, steps[k], p);
    assert states[k + 1] == Apply(c, steps[k]);
    hide Apply, Enabled, Invalidated, Inv;
  }

  // And no pair names it again before its final id arrives late.
  lemma {:induction false} ForgottenUntilItsIdArrives(states: seq<Connection>, steps: seq<Step>, k: nat, n: nat, p: PublicId)
    requires IsRun(states, steps) && k < n < |states| && FailedPrevious(states[k], steps[k]) == Some(p)
    requires forall i | k < i < n :: steps[i].FinalId? ==> steps[i].callback.publicId != p
    ensures NoPairNames(states[n], p)
    decreases n
  {
    if n == k + 1 {
      FailureForgetsThePrevious(states, steps, k, p);
    } else {
      ForgottenUntilItsIdArrives(states, steps, k, n - 1, p);
      assert states[n] == Apply(states[n - 1], steps[n - 1]);
      OnlyItsIdNames(states[n - 1], steps[n - 1], p);
    }
  }

  lemma OnlyItsIdNames(c: Connection, s: Step, p: PublicId)
    requires Enabled(c, s) && NoPairNames(c, p) && (s.FinalId? ==> s.callback.publicId != p)
    ensures NoPairNames(Apply(c, s), p)
  {
    hide Expand, Served, PreviousItems, RouteOf;
  }

  // --- Nothing is ruled out ---------------------------------------------------------------------------------

  // The environment may act in every state, an idle connection may be sent anything, and whatever happened to a
  // turn so far, it can be given up, answered under any fresh id, retried whole or failed.
  lemma EveryTurnCanGoOn(c: Connection, items: seq<Item>, text: string, session: SessionId, b: bool, stored: Stored)
    ensures Enabled(c, Forget(session, text)) && Enabled(c, SocketCloses(session)) && Enabled(c, Deleted(text)) &&
            Enabled(c, CloseAll) && (text !in c.issued ==> Enabled(c, StoredElsewhere(text, stored))) &&
            forall callback | callback in c.pending :: Enabled(c, FinalId(callback))
    ensures c.turn.None? ==>
              Enabled(c, Begin(None, items, b)) && Enabled(c, Refuse(Some(text), b)) &&
              (text in c.stored ==> Enabled(c, Begin(Some(text), items, b))) &&
              (c.finishing.Some? ==> Enabled(c, FailAfterCommit))
    ensures c.turn.Some? ==> Enabled(c, Fail(b)) && (c.turn.value.attempt.None? ==> Enabled(c, Try(text, b, b)))
    ensures c.turn.Some? && c.turn.value.attempt.Some? ==>
              var a := c.turn.value.attempt.value;
              && Enabled(c, GiveUpAttempt)
              && (a.answer.Some? && text !in c.issued ==> Enabled(c, Finish(text, b)))
              && (a.answer.None? && !a.route.OverSocket? ==> Enabled(c, Generate(items, items, None)))
              && (a.answer.None? && a.route.OverSocket? ==>
                    if a.route.request.previous.None? then
                      Enabled(c, Generate(items, items, None)) &&
                      ((a.route.session, text) !in c.conversations ==> Enabled(c, Generate(items, items, Some(text))))
                    else Enabled(c, Evict) &&
                         ((a.route.session, a.route.request.previous.value) in c.remembered ==>
                            Enabled(c, Generate(items, items, None))))
  {
  }
}
