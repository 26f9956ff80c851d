// Private upstream response ids of one public WebSocket connection: which binding a turn uses,
// whether it sends a delta, and how commit, invalidation and eviction change the bindings.
module ResponsesSessions {
  import opened Prelude

  type DeploymentId = string
  type PublicId = string
  type UpstreamId = string
  type SessionId = nat

  // An input or output item. A compaction item carries what the gateway's own envelope opens to, if
  // it opens at all.
  datatype Item = Plain(text: string) | Developer(summary: string) | Compaction(envelope: string, unsealed: Option<string>)

  datatype Slot = Slot(session: SessionId, closed: bool, latestPublic: Option<PublicId>,
                       latestUpstream: Option<UpstreamId>)

  type View = map<DeploymentId, Slot>

  datatype Request = Request(previous: Option<UpstreamId>, rawInput: seq<Item>)

  // How a turn is carried: a local warm-up, the stateless transport with the full input, or the
  // deployment's socket.
  datatype Route = LocalWarmup | FullReplay | OverSocket(session: SessionId, request: Request)

  predicate NeedsConnect(view: View, d: DeploymentId) {
    d !in view || view[d].closed
  }

  predicate CanContinue(slot: Slot, previous: Option<PublicId>) {
    previous.Some? && slot.latestPublic == previous && slot.latestUpstream.Some?
  }

  function WithoutSocket(generate: bool): Route {
    if generate then FullReplay else LocalWarmup
  }

  function TurnRequest(slot: Slot, previous: Option<PublicId>, current: seq<Item>, full: seq<Item>): Request {
    if CanContinue(slot, previous) then Request(slot.latestUpstream, current) else Request(None, full)
  }

  // `connected` is the session a connection attempt yields, or None when it fails.
  function AfterRouting(view: View, d: DeploymentId, handler: bool, connected: Option<SessionId>): View {
    if !handler || !NeedsConnect(view, d) || connected.None? then view
    else view[d := Slot(connected.value, false, None, None)]
  }

  function RouteOf(view: View, d: DeploymentId, handler: bool, connected: Option<SessionId>, generate: bool,
                   previous: Option<PublicId>, current: seq<Item>, full: seq<Item>): Route
  {
    var after := AfterRouting(view, d, handler, connected);
    if !handler || (NeedsConnect(view, d) && connected.None?) then WithoutSocket(generate)
    else OverSocket(after[d].session, TurnRequest(after[d], previous, current, full))
  }

  function AfterCommit(view: View, d: DeploymentId): View {
    if d in view then map[d := view[d]] else map[]
  }

  function Detached(slot: Slot): Slot {
    slot.(latestPublic := None, latestUpstream := None)
  }

  function AfterInvalidate(view: View, p: PublicId): View {
    map d | d in view :: if view[d].latestPublic == Some(p) then Detached(view[d]) else view[d]
  }

  // The eviction retry drops the pair of the binding the turn runs on.
  function AfterEviction(view: View, session: SessionId): View {
    map d | d in view :: if view[d].session == session then Detached(view[d]) else view[d]
  }

  // The final upstream id of a committed turn, delivered some time after the commit.
  function AfterFinalId(view: View, session: SessionId, p: PublicId, id: Option<UpstreamId>): View {
    map d | d in view ::
      if view[d].session == session && id.Some? && !view[d].closed
      then view[d].(latestPublic := Some(p), latestUpstream := id)
      else view[d]
  }

  function AfterSocketClose(view: View, session: SessionId): View {
    map d | d in view :: if view[d].session == session then view[d].(closed := true) else view[d]
  }

  class Binding {
    const session: SessionId
    var closed: bool
    var latestPublic: Option<PublicId>
    var latestUpstream: Option<UpstreamId>

    constructor (session: SessionId)
      ensures this.session == session && !closed && latestPublic == None && latestUpstream == None
    {
      this.session := session;
      closed, latestPublic, latestUpstream := false, None, None;
    }

    ghost function AsSlot(): Slot
      reads this
    {
      Slot(session, closed, latestPublic, latestUpstream)
    }

    // The callback a commit leaves behind.
    method FinalIdArrives(p: PublicId, id: Option<UpstreamId>)
      modifies this
      ensures AsSlot() == if id.Some? && !old(closed)
                          then old(AsSlot()).(latestPublic := Some(p), latestUpstream := id) else old(AsSlot())
    {
      if id.None? || closed { return; }
      latestPublic := Some(p);
      latestUpstream := id;
    }
  }

  class ResponsesWebSocketUpstreams {
    var bindings: map<DeploymentId, Binding>

    // One binding object, and one session, per deployment.
    ghost predicate Valid()
      reads this, bindings.Values
    {
      forall a, b | a in bindings && b in bindings && a != b ::
        bindings[a] != bindings[b] && bindings[a].session != bindings[b].session
    }

    ghost function AsView(): View
      reads this, bindings.Values
    {
      map d | d in bindings :: bindings[d].AsSlot()
    }

    constructor ()
      ensures Valid() && AsView() == map[]
    {
      bindings := map[];
    }

    // The open binding of a deployment, connecting when there is none.
    method Obtain(d: DeploymentId, connected: Option<SessionId>) returns (binding: Binding?)
      requires Valid()
      requires connected.Some? ==> forall x | x in bindings :: bindings[x].session != connected.value
      modifies this
      ensures Valid()
      ensures AsView() == AfterRouting(old(AsView()), d, true, connected)
      ensures binding == null <==> old(NeedsConnect(AsView(), d)) && connected.None?
      ensures binding != null ==> d in bindings && binding == bindings[d]
    {
      if d in bindings && !bindings[d].closed { return bindings[d]; }
      if connected.None? { return null; }
      binding := new Binding(connected.value);
      bindings := bindings[d := binding];
    }

    method Execute(d: DeploymentId, handler: bool, connected: Option<SessionId>, generate: bool,
                   previous: Option<PublicId>, current: seq<Item>, full: seq<Item>)
      returns (route: Route, binding: Binding?)
      requires Valid()
      requires connected.Some? ==> forall x | x in bindings :: bindings[x].session != connected.value
      modifies this
      ensures Valid()
      ensures AsView() == AfterRouting(old(AsView()), d, handler, connected)
      ensures route == RouteOf(old(AsView()), d, handler, connected, generate, previous, current, full)
      ensures route.OverSocket? ==> d in bindings && binding == bindings[d]
    {
      if !handler { return WithoutSocket(generate), null; }
      binding := Obtain(d, connected);
      if binding == null { return WithoutSocket(generate), null; }
      var canContinue := previous.Some? && binding.latestPublic == previous && binding.latestUpstream.Some?;
      var request := if canContinue then Request(binding.latestUpstream, current) else Request(None, full);
      assert AsView()[d] == binding.AsSlot();
      route := OverSocket(binding.session, request);
    }

    // The turn's own binding loses its pair when the upstream no longer knows the previous id.
    method Evicted(d: DeploymentId)
      requires Valid() && d in bindings
      modifies bindings[d]
      ensures Valid() && bindings == old(bindings)
      ensures AsView() == AfterEviction(old(AsView()), bindings[d].session)
    {
      bindings[d].latestPublic := None;
      bindings[d].latestUpstream := None;
    }

    method Commit(d: DeploymentId)
      requires Valid()
      modifies this, bindings.Values
      ensures Valid() && AsView() == AfterCommit(old(AsView()), d)
      ensures forall x | x in old(bindings) && x != d :: old(bindings)[x].closed
      ensures forall x | x in bindings :: x in old(bindings) && bindings[x] == old(bindings)[x]
    {
      ghost var before := bindings;
      var left := bindings.Keys;
      while left != {}
        invariant left <= bindings.Keys <= before.Keys
        invariant forall x | x in bindings :: bindings[x] == before[x] && (x !in left ==> x == d)
        invariant d in before ==> d in bindings
        invariant forall x | x in before && x !in left && x != d :: before[x].closed
        invariant d in before ==> before[d].AsSlot() == old(before[d].AsSlot())
        decreases left
      {
        var id :| id in left;
        left := left - {id};
        if id != d {
          bindings[id].closed := true;
          bindings := bindings - {id};
        }
      }
    }

    method Invalidate(p: PublicId)
      requires Valid()
      modifies bindings.Values
      ensures Valid() && bindings == old(bindings) && AsView() == AfterInvalidate(old(AsView()), p)
    {
      var left := bindings.Keys;
      while left != {}
        invariant left <= bindings.Keys && bindings == old(bindings)
        invariant forall x | x in bindings ::
          bindings[x].AsSlot() == (if x !in left && old(bindings[x].latestPublic) == Some(p)
                                   then Detached(old(bindings[x].AsSlot())) else old(bindings[x].AsSlot()))
        decreases left
      {
        var id :| id in left;
        left := left - {id};
        if bindings[id].latestPublic == Some(p) {
          bindings[id].latestPublic := None;
          bindings[id].latestUpstream := None;
        }
      }
    }

    method Close()
      requires Valid()
      modifies this, bindings.Values
      ensures Valid() && AsView() == map[]
      ensures forall x | x in old(bindings) :: old(bindings)[x].closed
    {
      ghost var before := bindings;
      var left := bindings.Keys;
      while left != {}
        invariant left <= before.Keys && bindings == before
        invariant forall x | x in before && x !in left :: before[x].closed
        decreases left
      {
        var id :| id in left;
        left := left - {id};
        bindings[id].closed := true;
      }
      bindings := map[];
    }
  }
}
