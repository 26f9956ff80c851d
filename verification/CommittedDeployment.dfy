// Which deployment a connection's upstream ids belong to, over whole runs: the one of its last commit.
module CommittedDeployment {
  import opened Prelude
  import opened ResponsesSessions
  import opened Continuation

  // The deployment a turn was committed for, and the first session that was opened after that.
  datatype Commit = Commit(deployment: DeploymentId, since: SessionId)

  // The last commit among the first k steps of a run.
  function LastCommit(states: seq<Connection>, steps: seq<Step>, k: nat): Option<Commit>
    requires IsRun(states, steps) && k < |states|
  {
    if k == 0 then None
    else
      var c, s := states[k - 1], steps[k - 1];
      if s.Finish? then Some(Commit(c.turn.value.attempt.value.deployment, c.nextSession))
      else LastCommit(states, steps, k - 1)
  }

  function Since(last: Option<Commit>): SessionId {
    if last.Some? then last.value.since else 0
  }

  ghost predicate Owns(last: Option<Commit>, d: DeploymentId) {
    last.Some? && last.value.deployment == d
  }

  // Every binding of another deployment was opened after the last commit and holds nothing yet, and the final
  // ids still to come belong to sessions opened before it.
  ghost predicate Owned(c: Connection, last: Option<Commit>) {
    Since(last) <= c.nextSession &&
    (forall cb | cb in c.pending :: cb.session < Since(last)) &&
    (forall d | d in c.bindings :: c.bindings[d].session < c.nextSession && (Owns(last, d) || Unused(c.bindings[d], last))) &&
    (c.turn.Some? && c.turn.value.attempt.Some? && c.turn.value.attempt.value.route.OverSocket? ==>
       c.turn.value.attempt.value.route.session < c.nextSession)
  }

  ghost predicate Unused(slot: Slot, last: Option<Commit>) {
    slot.latestPublic.None? && slot.latestUpstream.None? && Since(last) <= slot.session
  }

  lemma CallbacksNameTheSession(t: Turn, a: Attempt, p: PublicId, number: nat)
    requires a.answer.Some?
    ensures forall cb | cb in Callbacks(p, EntryOf(t, a, number)) :: a.route.OverSocket? && cb.session == a.route.session
  {
  }

  // A commit leaves the committed deployment's binding as it is and no other.
  lemma CommitTouches(c: Connection, s: Step)
    requires s.Finish? && Enabled(c, s)
    ensures var c' := Apply(c, s);
            var a := c.turn.value.attempt.value;
            && c'.turn.None? && c'.nextSession == c.nextSession
            && c'.bindings.Keys == c.bindings.Keys * {a.deployment}
            && (a.deployment in c.bindings ==> c'.bindings[a.deployment] == c.bindings[a.deployment])
            && forall cb | cb in c'.pending && cb !in c.pending :: a.route.OverSocket? && cb.session == a.route.session
  {
    CallbacksNameTheSession(c.turn.value, c.turn.value.attempt.value, s.publicId, |c.log|);
    hide EntryOf, Callbacks;
  }

  lemma CommitOwns(c: Connection, s: Step, last: Option<Commit>)
    requires Owned(c, last) && s.Finish? && Enabled(c, s)
    ensures Owned(Apply(c, s), Some(Commit(c.turn.value.attempt.value.deployment, c.nextSession)))
  {
    CommitTouches(c, s);
    hide Apply;
  }

  lemma TryOpensUnused(c: Connection, s: Step, last: Option<Commit>)
    requires Owned(c, last) && s.Try? && Enabled(c, s)
    ensures Owned(Apply(c, s), last)
  {
  }

  // A step that adds no callback and opens no session.
  lemma OtherStepsAddNothing(c: Connection, s: Step)
    requires !s.Finish? && !s.Try? && Enabled(c, s)
    ensures var c' := Apply(c, s);
            && c'.pending <= c.pending && c'.nextSession == c.nextSession
            && (c'.turn.Some? && c'.turn.value.attempt.Some? && c'.turn.value.attempt.value.route.OverSocket? ==>
                  c.turn.Some? && c.turn.value.attempt.Some? && c.turn.value.attempt.value.route.OverSocket? &&
                  c'.turn.value.attempt.value.route.session == c.turn.value.attempt.value.route.session)
  {
    hide Expand, PreviousItems, Served, AfterInvalidate, AfterEviction, AfterFinalId, AfterSocketClose;
  }

  lemma OtherStepsKeepSessions(c: Connection, s: Step)
    requires !s.Finish? && !s.Try? && Enabled(c, s)
    ensures forall d | d in Apply(c, s).bindings ::
              d in c.bindings && Apply(c, s).bindings[d].session == c.bindings[d].session
  {
    hide Expand, PreviousItems, Served;
  }

  // An id arrives only for a session that a callback names.
  lemma OtherStepsFillNothing(c: Connection, s: Step, d: DeploymentId)
    requires !s.Finish? && !s.Try? && Enabled(c, s) && d in Apply(c, s).bindings
    requires d in c.bindings && forall cb | cb in c.pending :: cb.session != c.bindings[d].session
    requires c.bindings[d].latestPublic.None? && c.bindings[d].latestUpstream.None?
    ensures Apply(c, s).bindings[d].latestPublic.None? && Apply(c, s).bindings[d].latestUpstream.None?
  {
    hide Expand, PreviousItems, Served;
  }

  lemma OtherStepsKeep(c: Connection, s: Step, last: Option<Commit>)
    requires Owned(c, last) && !s.Finish? && !s.Try? && Enabled(c, s)
    ensures Owned(Apply(c, s), last)
  {
    hide Apply, Enabled, Expand;
    var c' := Apply(c, s);
    OtherStepsAddNothing(c, s);
    OtherStepsKeepSessions(c, s);
    forall d | d in c'.bindings && !Owns(last, d)
      ensures c'.bindings[d].latestPublic.None? && c'.bindings[d].latestUpstream.None?
    {
      OtherStepsFillNothing(c, s, d);
    }
  }

  lemma {:induction false} OwnedInEveryRun(states: seq<Connection>, steps: seq<Step>, k: nat)
    requires IsRun(states, steps) && k < |states|
    ensures Owned(states[k], LastCommit(states, steps, k))
  {
    hide Apply, Enabled;
    if k > 0 {
      var c, s := states[k - 1], steps[k - 1];
      OwnedInEveryRun(states, steps, k - 1);
      hide Owned;
      if s.Finish? {
        CommitOwns(c, s, LastCommit(states, steps, k - 1));
      } else if s.Try? {
        TryOpensUnused(c, s, LastCommit(states, steps, k - 1));
      } else {
        OtherStepsKeep(c, s, LastCommit(states, steps, k - 1));
      }
    }
  }

  // In every reachable state a binding that holds an id, or for which a final id is still to come, is the one of
  // the deployment committed last. Any other binding was opened after that commit.
  lemma PairsStayWithTheCommitted(states: seq<Connection>, steps: seq<Step>, k: nat, d: DeploymentId)
    requires IsRun(states, steps) && k < |states| && d in states[k].bindings
    ensures var slot := states[k].bindings[d];
            var last := LastCommit(states, steps, k);
            && ((slot.latestPublic.Some? || slot.latestUpstream.Some? ||
                 exists cb :: cb in states[k].pending && cb.session == slot.session) ==> Owns(last, d))
            && (!Owns(last, d) ==> Since(last) <= slot.session)
  {
    OwnedInEveryRun(states, steps, k);
  }
}
