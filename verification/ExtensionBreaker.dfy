// The circuit breaker of extension instances: how an instance is disabled and revived, and how a hook
// run selects instances and records their outcomes while other runs do the same.
module ExtensionBreaker {
  import opened Prelude

  datatype Hook = OnCanonicalRequest | OnCanonicalResponse | OnStreamEvent | OnImageOutput | OnError

  datatype Status = Active | ConfiguredDisabled | RuntimeDisabled

  datatype DisabledKind = ByConfig | ByLoad | BySetup | ByBreaker

  datatype Phase = LoadPhase | SetupPhase | HookPhase(hook: Hook)

  // What the breaker changes about an instance; lastError keeps where the error arose.
  datatype State = State(status: Status, failureCount: nat, disabledKind: Option<DisabledKind>, lastError: Option<Phase>)

  function Succeed(s: State): State {
    s.(failureCount := 0)
  }

  // The limit is a positive configuration value.
  function FailIn(s: State, hook: Hook, limit: nat): State {
    var failed := s.(failureCount := s.failureCount + 1, lastError := Some(HookPhase(hook)));
    if failed.failureCount >= limit then failed.(status := RuntimeDisabled, disabledKind := Some(ByBreaker)) else failed
  }

  // A failing error hook is only noted.
  function NoteError(s: State): State {
    s.(lastError := Some(HookPhase(OnError)))
  }

  predicate Resettable(s: State) {
    s.status.RuntimeDisabled? && s.disabledKind == Some(ByBreaker)
  }

  function Reset(s: State): State {
    if Resettable(s) then State(Active, 0, None, None) else s
  }

  // --- Loading --------------------------------------------------------------------------------------------

  datatype Match = Match(models: Option<set<string>>, callTypes: Option<set<string>>, endpoints: Option<set<string>>)

  datatype Scope = Scope(publicModel: Option<string>, callType: string, endpoint: string)

  // A list restricts, a missing one does not; an empty or missing model is on no list.
  predicate MatchApplies(m: Match, scope: Scope) {
    (m.models.Some? ==> scope.publicModel.Some? && scope.publicModel.value != "" &&
                        scope.publicModel.value in m.models.value) &&
    (m.callTypes.Some? ==> scope.callType in m.callTypes.value) &&
    (m.endpoints.Some? ==> scope.endpoint in m.endpoints.value)
  }

  // A list of the match that does not hold the scope's value.
  predicate Excluded(m: Match, scope: Scope) {
    (m.callTypes.Some? && scope.callType !in m.callTypes.value) ||
    (m.endpoints.Some? && scope.endpoint !in m.endpoints.value) ||
    (m.models.Some? && (scope.publicModel.None? || scope.publicModel == Some("") ||
                        scope.publicModel.value !in m.models.value))
  }

  lemma AppliesUnlessExcluded(m: Match, scope: Scope)
    ensures MatchApplies(m, scope) <==> !Excluded(m, scope)
  {
  }

  // Leaving a list out never takes a scope away from an instance.
  lemma FewerListsApplyMore(m: Match, scope: Scope)
    requires MatchApplies(m, scope)
    ensures MatchApplies(m.(models := None), scope) && MatchApplies(m.(callTypes := None), scope) &&
            MatchApplies(m.(endpoints := None), scope)
    ensures MatchApplies(Match(None, None, None), scope)
  {
  }

  // `valid` says whether match and configuration pass the definition's schemas.
  datatype Spec = Spec(id: string, definition: string, enabled: Option<bool>, critical: Option<bool>,
                       config: string, filter: Match, valid: bool)

  datatype Definition = Definition(defaultCritical: Option<bool>, hooks: set<Hook>, setupFails: bool)

  type Definitions = map<string, Definition>

  function OrElse<T>(o: Option<T>, default: T): T {
    if o.Some? then o.value else default
  }

  function CriticalOf(spec: Spec, definitions: Definitions): bool {
    OrElse(spec.critical,
           if spec.definition in definitions then OrElse(definitions[spec.definition].defaultCritical, true) else true)
  }

  // An unknown definition has no hooks.
  function HooksOf(spec: Spec, definitions: Definitions): set<Hook> {
    if spec.definition in definitions then definitions[spec.definition].hooks else {}
  }

  function LoadedState(spec: Spec, definitions: Definitions): State {
    if spec.definition !in definitions || !spec.valid then State(RuntimeDisabled, 0, Some(ByLoad), Some(LoadPhase))
    else if spec.enabled == Some(false) then State(ConfiguredDisabled, 0, Some(ByConfig), None)
    else State(Active, 0, None, None)
  }

  class Instance {
    const id: string
    const definition: string
    const hooks: set<Hook>
    const filter: Match
    const enabled: bool
    const critical: bool
    var status: Status
    var failureCount: nat
    var disabledKind: Option<DisabledKind>
    var lastError: Option<Phase>

    ghost function Model(): State
      reads this
    {
      State(status, failureCount, disabledKind, lastError)
    }

    // An instance as a manifest entry describes it; one that does not validate is disabled, not fatal.
    constructor (spec: Spec, definitions: Definitions)
      ensures id == spec.id && definition == spec.definition && filter == spec.filter
      ensures enabled == OrElse(spec.enabled, true) && critical == CriticalOf(spec, definitions)
      ensures hooks == HooksOf(spec, definitions)
      ensures Model() == LoadedState(spec, definitions)
    {
      id, definition, filter := spec.id, spec.definition, spec.filter;
      hooks := HooksOf(spec, definitions);
      enabled := OrElse(spec.enabled, true);
      critical := CriticalOf(spec, definitions);
      failureCount, lastError := 0, None;
      status := if spec.enabled == Some(false) then ConfiguredDisabled else Active;
      disabledKind := if spec.enabled == Some(false) then Some(ByConfig) else None;
      new;
      if spec.definition !in definitions || !spec.valid {
        status, disabledKind, lastError := RuntimeDisabled, Some(ByLoad), Some(LoadPhase);
      }
    }

    method RecordSuccess()
      modifies this
      ensures Model() == Succeed(old(Model()))
    {
      failureCount := 0;
    }

    method RecordFailure(hook: Hook, limit: nat)
      modifies this
      ensures Model() == FailIn(old(Model()), hook, limit)
    {
      failureCount := failureCount + 1;
      lastError := Some(HookPhase(hook));
      if failureCount >= limit {
        status, disabledKind := RuntimeDisabled, Some(ByBreaker);
      }
    }

    method RecordErrorHookFailure()
      modifies this
      ensures Model() == NoteError(old(Model()))
    {
      lastError := Some(HookPhase(OnError));
    }

    method FailSetup()
      modifies this
      ensures Model() == old(Model()).(status := RuntimeDisabled, disabledKind := Some(BySetup), lastError := Some(SetupPhase))
    {
      status, disabledKind, lastError := RuntimeDisabled, Some(BySetup), Some(SetupPhase);
    }

    predicate Blocks(scope: Scope)
      reads this`status
    {
      enabled && MatchApplies(filter, scope) && critical && status != Active
    }

    predicate Runs(hook: Hook, scope: Scope)
      reads this`status
    {
      enabled && MatchApplies(filter, scope) && status == Active && hook in hooks
    }
  }

  // Manifest entries whose id did not occur before.
  function FirstOfEachId(specs: seq<Spec>): seq<Spec>
    decreases |specs|
  {
    if specs == [] then []
    else
      var front, last := FirstOfEachId(specs[..|specs| - 1]), specs[|specs| - 1];
      if exists s | s in front :: s.id == last.id then front else front + [last]
  }

  method BuildInstances(specs: seq<Spec>, definitions: Definitions) returns (instances: seq<Instance>)
    ensures |instances| == |FirstOfEachId(specs)|
    ensures forall i | 0 <= i < |instances| ::
              var spec := FirstOfEachId(specs)[i];
              fresh(instances[i]) && instances[i].id == spec.id && instances[i].definition == spec.definition &&
              instances[i].filter == spec.filter && instances[i].critical == CriticalOf(spec, definitions) &&
              instances[i].enabled == OrElse(spec.enabled, true) && instances[i].hooks == HooksOf(spec, definitions) &&
              instances[i].Model() == LoadedState(spec, definitions)
    ensures forall i, j | 0 <= i < j < |instances| :: instances[i].id != instances[j].id
  {
    instances := [];
    var seen: set<string> := {};
    for n := 0 to |specs|
      invariant |instances| == |FirstOfEachId(specs[..n])|
      invariant seen == set s | s in FirstOfEachId(specs[..n]) :: s.id
      invariant forall i | 0 <= i < |instances| ::
                  var spec := FirstOfEachId(specs[..n])[i];
                  fresh(instances[i]) && instances[i].id == spec.id && instances[i].definition == spec.definition &&
                  instances[i].filter == spec.filter && instances[i].critical == CriticalOf(spec, definitions) &&
                  instances[i].enabled == OrElse(spec.enabled, true) && instances[i].hooks == HooksOf(spec, definitions) &&
                  instances[i].Model() == LoadedState(spec, definitions)
      invariant forall i, j | 0 <= i < j < |instances| :: instances[i].id != instances[j].id
    {
      assert specs[..n + 1][..n] == specs[..n];
      if specs[n].id !in seen {
        seen := seen + {specs[n].id};
        var instance := new Instance(specs[n], definitions);
        instances := instances + [instance];
      }
    }
    assert specs[..|specs|] == specs;
  }

  // A setup that fails disables the instances of its definition that would have run.
  method SetupDefinition(key: string, d: Definition, instances: seq<Instance>)
    requires forall i, j | 0 <= i < j < |instances| :: instances[i] != instances[j]
    modifies instances
    ensures forall i | i in instances ::
              i.Model() == if d.setupFails && i.definition == key && i.enabled && old(i.status) == Active
                           then State(RuntimeDisabled, old(i.failureCount), Some(BySetup), Some(SetupPhase))
                           else old(i.Model())
  {
    if !d.setupFails { return; }
    for n := 0 to |instances|
      invariant forall k | 0 <= k < n ::
                  instances[k].Model() ==
                    if instances[k].definition == key && instances[k].enabled && old(instances[k].status) == Active
                    then State(RuntimeDisabled, old(instances[k].failureCount), Some(BySetup), Some(SetupPhase))
                    else old(instances[k].Model())
      invariant forall k | n <= k < |instances| :: instances[k].Model() == old(instances[k].Model())
    {
      var instance := instances[n];
      if instance.definition == key && instance.enabled && instance.status == Active { instance.FailSetup(); }
    }
  }

  // --- Hook runs ------------------------------------------------------------------------------------------

  // The instances a hook would run on, in order.
  function Running(instances: seq<Instance>, hook: Hook, scope: Scope): seq<Instance>
    reads instances
    decreases |instances|
  {
    if instances == [] then []
    else
      var last := instances[|instances| - 1];
      Running(instances[..|instances| - 1], hook, scope) + if last.Runs(hook, scope) then [last] else []
  }

  lemma {:induction false} SelectedUnlessExcluded(instances: seq<Instance>, hook: Hook, scope: Scope)
    ensures forall i :: i in Running(instances, hook, scope) <==>
              i in instances && i.enabled && i.status == Active && hook in i.hooks && !Excluded(i.filter, scope)
    decreases |instances|
  {
    if instances != [] {
      var front, last := instances[..|instances| - 1], instances[|instances| - 1];
      SelectedUnlessExcluded(front, hook, scope);
      AppliesUnlessExcluded(last.filter, scope);
      assert instances == front + [last];
      hide MatchApplies, Excluded;
    }
  }

  lemma BlocksUnlessExcluded(instances: seq<Instance>, scope: Scope)
    ensures forall i | i in instances ::
              i.Blocks(scope) <==> i.enabled && i.critical && i.status != Active && !Excluded(i.filter, scope)
  {
    forall i | i in instances
      ensures i.Blocks(scope) <==> i.enabled && i.critical && i.status != Active && !Excluded(i.filter, scope)
    {
      AppliesUnlessExcluded(i.filter, scope);
    }
  }

  // A disabled critical instance that matches fails the selection, so no hook of the run executes.
  method InstancesFor(instances: seq<Instance>, hook: Hook, scope: Scope) returns (r: Result<seq<Instance>, Instance>)
    ensures r.Err? <==> exists i | 0 <= i < |instances| :: instances[i].Blocks(scope)
    ensures r.Err? ==> r.error in instances && r.error.Blocks(scope)
    ensures r.Ok? ==> r.value == Running(instances, hook, scope)
    ensures r.Err? ==> r.error.enabled && r.error.critical && r.error.status != Active && !Excluded(r.error.filter, scope)
    ensures r.Ok? ==> forall i | i in instances && i.enabled && i.critical && !Excluded(i.filter, scope) :: i.status == Active
    ensures r.Ok? ==> forall i :: i in r.value <==>
              i in instances && i.enabled && i.status == Active && hook in i.hooks && !Excluded(i.filter, scope)
  {
    SelectedUnlessExcluded(instances, hook, scope);
    BlocksUnlessExcluded(instances, scope);
    var selected := [];
    for n := 0 to |instances|
      invariant selected == Running(instances[..n], hook, scope)
      invariant forall k | 0 <= k < n :: !instances[k].Blocks(scope)
    {
      var instance := instances[n];
      assert instances[..n + 1][..n] == instances[..n];
      if instance.enabled && MatchApplies(instance.filter, scope) {
        if instance.status != Active {
          if instance.critical { return Err(instance); }
        } else if hook in instance.hooks {
          selected := selected + [instance];
        }
      }
    }
    assert instances[..|instances|] == instances;
    r := Ok(selected);
  }

  // --- From the manifest to the selection -------------------------------------------------------------------

  // An entry whose id no earlier entry has.
  ghost predicate IsFirst(specs: seq<Spec>, s: Spec) {
    exists k :: 0 <= k < |specs| && specs[k] == s && forall j | 0 <= j < k :: specs[j].id != s.id
  }

  ghost predicate Occurs(specs: seq<Spec>, id: string) {
    exists k :: 0 <= k < |specs| && specs[k].id == id
  }

  lemma FirstStep(front: seq<Spec>, last: Spec, s: Spec)
    ensures IsFirst(front + [last], s) <==> IsFirst(front, s) || (s == last && !Occurs(front, s.id))
  {
    var specs := front + [last];
    assert specs[|front|] == last && forall k | 0 <= k < |front| :: specs[k] == front[k];
    if IsFirst(front, s) {
      var k :| 0 <= k < |front| && front[k] == s && forall j | 0 <= j < k :: front[j].id != s.id;
      assert specs[k] == s;
    }
  }

  // The entries kept are those whose id no earlier entry has.
  lemma {:induction false} FirstEntriesWin(specs: seq<Spec>)
    ensures forall s :: s in FirstOfEachId(specs) <==> IsFirst(specs, s)
    ensures forall id :: Occurs(specs, id) <==> exists s :: s in FirstOfEachId(specs) && s.id == id
    decreases |specs|
  {
    if specs != [] {
      var front, last := specs[..|specs| - 1], specs[|specs| - 1];
      assert specs == front + [last];
      FirstEntriesWin(front);
      forall s { FirstStep(front, last, s); }
      forall id
        ensures Occurs(specs, id) <==> Occurs(front, id) || id == last.id
      {
        if Occurs(front, id) {
          var k :| 0 <= k < |front| && front[k].id == id;
          assert specs[k].id == id;
        }
        assert specs[|front|] == last;
      }
      hide IsFirst, Occurs;
    }
  }

  // They stay in the order of the manifest: later entries do not disturb earlier ones.
  lemma {:induction false} LaterEntriesAddOnly(specs: seq<Spec>, n: nat)
    requires n <= |specs|
    ensures FirstOfEachId(specs[..n]) <= FirstOfEachId(specs)
    decreases |specs|
  {
    if n == |specs| {
      assert specs[..n] == specs;
    } else {
      var front := specs[..|specs| - 1];
      assert specs[..n] == front[..n];
      LaterEntriesAddOnly(front, n);
    }
  }

  // The entry says whether it is critical, or else its definition does, and in doubt it is.
  predicate CountsAsCritical(spec: Spec, definitions: Definitions) {
    spec.critical == Some(true) ||
    (spec.critical.None? && (spec.definition in definitions ==> definitions[spec.definition].defaultCritical != Some(false)))
  }

  predicate Usable(spec: Spec, definitions: Definitions) {
    spec.valid && spec.definition in definitions
  }

  // The instance is as loading leaves it.
  ghost predicate AsLoaded(i: Instance, spec: Spec, definitions: Definitions)
    reads i
  {
    i.filter == spec.filter && i.critical == CriticalOf(spec, definitions) && i.enabled == OrElse(spec.enabled, true) &&
    i.hooks == HooksOf(spec, definitions) && i.Model() == LoadedState(spec, definitions)
  }

  // Before anything ran, an entry that is not switched off and admits the scope fails every selection exactly if it
  // is critical and cannot be used, and is selected exactly if it can be used and has the hook.
  lemma EntriesDecideTheFirstSelection(i: Instance, spec: Spec, definitions: Definitions, hook: Hook, scope: Scope)
    requires AsLoaded(i, spec, definitions)
    ensures i.Blocks(scope) <==>
              spec.enabled != Some(false) && !Excluded(spec.filter, scope) && CountsAsCritical(spec, definitions) &&
              !Usable(spec, definitions)
    ensures i.Runs(hook, scope) <==>
              spec.enabled != Some(false) && !Excluded(spec.filter, scope) && Usable(spec, definitions) &&
              hook in definitions[spec.definition].hooks
    ensures i.disabledKind ==
              if !Usable(spec, definitions) then Some(ByLoad) else if spec.enabled == Some(false) then Some(ByConfig) else None
  {
    AppliesUnlessExcluded(spec.filter, scope);
    hide MatchApplies, Excluded;
  }

  // What a hook gave: nothing, a record that replaces the value, something else, or an exception.
  datatype Outcome<+T> = Nothing | Replaced(value: T) | NotARecord | Threw

  function Threaded<T>(initial: T, outcomes: seq<Outcome<T>>): T
    decreases |outcomes|
  {
    if outcomes == [] then initial
    else
      var last := outcomes[|outcomes| - 1];
      if last.Replaced? then last.value else Threaded(initial, outcomes[..|outcomes| - 1])
  }

  // What a run passes on is the last value that replaced it, or the first one.
  lemma {:induction false} LastReplacementIsPassedOn<T>(initial: T, outcomes: seq<Outcome<T>>)
    ensures (forall i | 0 <= i < |outcomes| :: !outcomes[i].Replaced?) ==> Threaded(initial, outcomes) == initial
    ensures forall i | 0 <= i < |outcomes| && outcomes[i].Replaced? &&
                       (forall j | i < j < |outcomes| :: !outcomes[j].Replaced?) ::
              Threaded(initial, outcomes) == outcomes[i].value
    decreases |outcomes|
  {
    if outcomes != [] {
      var front := outcomes[..|outcomes| - 1];
      LastReplacementIsPassedOn(initial, front);
      assert forall i | 0 <= i < |front| :: front[i] == outcomes[i];
    }
  }

  // One run of a hook over the instances it selected. Other runs may share them and record between any two
  // of its deliveries.
  class HookRun<T> {
    const hook: Hook
    const selected: seq<Instance>
    const initial: T
    var next: nat
    var current: T
    var failed: bool
    ghost var outcomes: seq<Outcome<T>>

    ghost predicate Valid()
      reads this
    {
      next <= |selected| && |outcomes| == next && current == Threaded(initial, outcomes) && (failed ==> next < |selected|)
    }

    constructor (hook: Hook, selected: seq<Instance>, initial: T)
      ensures Valid() && this.hook == hook && this.selected == selected && this.initial == initial
      ensures next == 0 && !failed
    {
      this.hook, this.selected, this.initial := hook, selected, initial;
      next, current, failed, outcomes := 0, initial, false, [];
    }

    // The next selected hook settles: a success clears the count and passes the value on, anything else is
    // recorded against the instance and fails the run.
    method Deliver(outcome: Outcome<T>, limit: nat)
      requires Valid() && !failed && next < |selected| && !hook.OnError?
      modifies this, selected[next]
      ensures Valid() && (failed <==> outcome.NotARecord? || outcome.Threw?)
      ensures !failed ==> next == old(next) + 1 && outcomes == old(outcomes) + [outcome] &&
                          selected[old(next)].Model() == Succeed(old(selected[next].Model()))
      ensures failed ==> next == old(next) && current == old(current) && outcomes == old(outcomes) &&
                         selected[next].Model() == FailIn(old(selected[next].Model()), hook, limit)
    {
      var instance := selected[next];
      if outcome.NotARecord? || outcome.Threw? {
        instance.RecordFailure(hook, limit);
        failed := true;
      } else {
        if outcome.Replaced? { current := outcome.value; }
        instance.RecordSuccess();
        next, outcomes := next + 1, outcomes + [outcome];
        assert outcomes[..|outcomes| - 1] == old(outcomes);
      }
    }

    // An error hook settles: a failure is noted on the instance, and the run goes on either way.
    method DeliverError(outcome: Outcome<T>)
      requires Valid() && !failed && next < |selected| && hook.OnError?
      modifies this, selected[next]
      ensures Valid() && !failed && next == old(next) + 1 && current == old(current)
      ensures selected[old(next)].Model() ==
                if outcome.Threw? then NoteError(old(selected[next].Model())) else old(selected[next].Model())
    {
      if outcome.Threw? { selected[next].RecordErrorHookFailure(); }
      next, outcomes := next + 1, outcomes + [Nothing];
      assert outcomes[..|outcomes| - 1] == old(outcomes);
    }
  }

  method BeginRun<T>(instances: seq<Instance>, hook: Hook, scope: Scope, value: T)
    returns (r: Result<HookRun<T>, Instance>)
    ensures r.Err? <==> exists i | 0 <= i < |instances| :: instances[i].Blocks(scope)
    ensures r.Ok? ==> fresh(r.value) && r.value.Valid() && r.value.next == 0 && !r.value.failed &&
                      r.value.hook == hook && r.value.selected == Running(instances, hook, scope)
    ensures r.Err? ==> r.error in instances && r.error.enabled && r.error.critical && r.error.status != Active &&
                       !Excluded(r.error.filter, scope)
    ensures r.Ok? ==> forall i | i in instances && i.enabled && i.critical && !Excluded(i.filter, scope) :: i.status == Active
    ensures r.Ok? ==> forall i :: i in r.value.selected <==>
              i in instances && i.enabled && i.status == Active && hook in i.hooks && !Excluded(i.filter, scope)
  {
    var selection := InstancesFor(instances, hook, scope);
    if selection.Err? { return Err(selection.error); }
    var run := new HookRun<T>(hook, selection.value, value);
    r := Ok(run);
  }

  // Revives the instance of that id, if the breaker disabled it.
  method ResetInstance(instances: seq<Instance>, id: string) returns (found: bool, reset: bool)
    requires forall i, j | 0 <= i < j < |instances| :: instances[i].id != instances[j].id
    modifies instances
    ensures found <==> exists i | i in instances :: i.id == id
    ensures reset <==> exists i | i in instances :: i.id == id && Resettable(old(i.Model()))
    ensures forall i | i in instances :: i.Model() == if i.id == id then Reset(old(i.Model())) else old(i.Model())
  {
    var n := 0;
    while n < |instances| && instances[n].id != id
      invariant n <= |instances| && forall k | 0 <= k < n :: instances[k].id != id
    {
      n := n + 1;
    }
    if n == |instances| { return false, false; }
    var instance := instances[n];
    assert forall k | 0 <= k < |instances| :: instances[k].id == id ==> k == n;
    found := true;
    reset := instance.status == RuntimeDisabled && instance.disabledKind == Some(ByBreaker);
    if reset {
      instance.status, instance.failureCount, instance.disabledKind, instance.lastError := Active, 0, None, None;
    }
  }

  // --- Over all histories of an instance --------------------------------------------------------------------

  datatype Event = Succeeded | FailedIn(hook: Hook) | ErrorHookFailed | ResetCalled

  function Apply(s: State, e: Event, limit: nat): State {
    match e
    case Succeeded => Succeed(s)
    case FailedIn(hook) => FailIn(s, hook, limit)
    case ErrorHookFailed => NoteError(s)
    case ResetCalled => Reset(s)
  }

  // An instance starts active or disabled by configuration, load or setup.
  ghost predicate Initial(s: State) {
    s.failureCount == 0 && !(s.disabledKind == Some(ByBreaker)) && (s.status.Active? <==> s.disabledKind.None?)
  }

  // Outcomes are recorded only against an instance that some run selected while it was active. They may come
  // at any time after, in any order, since a run that overlaps others keeps its selection.
  ghost predicate History(states: seq<State>, events: seq<Event>, limit: nat) {
    |states| == |events| + 1 && limit > 0 && Initial(states[0]) &&
    (forall i | 0 <= i < |events| ::
       (states[0].status.Active? || events[i].ResetCalled?) && states[i + 1] == Apply(states[i], events[i], limit))
  }

  lemma ManifestStatesAreInitial(spec: Spec, definitions: Definitions)
    ensures Initial(LoadedState(spec, definitions))
    ensures LoadedState(spec, definitions).status.Active? ==>
              Initial(LoadedState(spec, definitions).(status := RuntimeDisabled, disabledKind := Some(BySetup)))
  {
  }

  ghost predicate Inv(s: State, first: State, limit: nat) {
    (s.status.Active? <==> s.disabledKind.None?) && (s.status.Active? ==> s.failureCount < limit) &&
    (s.disabledKind == Some(ByBreaker) ==> s.status.RuntimeDisabled?) &&
    (first.status.Active? ==> s.disabledKind.None? || s.disabledKind == Some(ByBreaker)) &&
    (!first.status.Active? ==> s == first)
  }

  lemma {:induction false} HistoriesKeepTheInvariant(states: seq<State>, events: seq<Event>, limit: nat, n: nat)
    requires History(states, events, limit) && n < |states|
    ensures Inv(states[n], states[0], limit)
  {
    if n > 0 {
      HistoriesKeepTheInvariant(states, events, limit, n - 1);
      assert states[n] == Apply(states[n - 1], events[n - 1], limit);
    }
  }

  // An instance has a reason to be disabled exactly when it is not active; one that configuration, load or
  // setup disabled never changes again.
  lemma DisabledIffAReason(states: seq<State>, events: seq<Event>, limit: nat, n: nat)
    requires History(states, events, limit) && n < |states|
    ensures states[n].disabledKind.None? <==> states[n].status.Active?
    ensures !states[0].status.Active? ==> states[n] == states[0]
  {
    HistoriesKeepTheInvariant(states, events, limit, n);
  }

  function Failures(events: seq<Event>): nat
    decreases |events|
  {
    if events == [] then 0
    else Failures(events[..|events| - 1]) + if events[|events| - 1].FailedIn? then 1 else 0
  }

  // Between m and n the instance stayed active and no success was recorded.
  ghost predicate Streak(states: seq<State>, events: seq<Event>, m: nat, n: nat)
    requires m <= n < |states| == |events| + 1
  {
    (forall i | m <= i <= n :: states[i].status.Active?) && forall i | m <= i < n :: !events[i].Succeeded?
  }

  // While active, the count is the number of failures in the streak that leads here.
  lemma {:induction false} CountIsTheStreak(states: seq<State>, events: seq<Event>, limit: nat, n: nat) returns (m: nat)
    requires History(states, events, limit) && n < |states| && states[n].status.Active?
    ensures m <= n && Streak(states, events, m, n) && states[n].failureCount == Failures(events[m..n])
  {
    m := n;
    assert events[n..n] == [];
    if n > 0 {
      assert states[n] == Apply(states[n - 1], events[n - 1], limit);
      if states[n - 1].status.Active? && !events[n - 1].Succeeded? {
        HistoriesKeepTheInvariant(states, events, limit, n - 1);
        m := CountIsTheStreak(states, events, limit, n - 1);
        assert events[m..n][..|events[m..n]| - 1] == events[m..n - 1];
      }
    }
  }

  // The breaker trips only as a failure completes a streak of `limit` failures without a success between.
  lemma TripsNeedAStreak(states: seq<State>, events: seq<Event>, limit: nat, n: nat)
    requires History(states, events, limit) && n < |events|
    requires states[n].status.Active? && !states[n + 1].status.Active?
    ensures events[n].FailedIn? && states[n + 1].disabledKind == Some(ByBreaker)
    ensures exists m: nat | m <= n :: Streak(states, events, m, n) && Failures(events[m..n]) + 1 == limit
  {
    HistoriesKeepTheInvariant(states, events, limit, n);
    assert states[n + 1] == Apply(states[n], events[n], limit);
    var m := CountIsTheStreak(states, events, limit, n);
  }

  // And a streak of that length always trips it, however other runs overlap.
  lemma {:induction false} StreaksTrip(states: seq<State>, events: seq<Event>, limit: nat, m: nat, n: nat)
    requires History(states, events, limit) && m <= n < |states|
    requires forall i | m <= i < n :: !events[i].Succeeded? && !events[i].ResetCalled?
    requires Failures(events[m..n]) >= limit && states[0].status.Active?
    ensures !states[n].status.Active? && states[n].disabledKind == Some(ByBreaker)
  {
    CountGrows(states, events, limit, m, n);
    HistoriesKeepTheInvariant(states, events, limit, n);
  }

  lemma {:induction false} CountGrows(states: seq<State>, events: seq<Event>, limit: nat, m: nat, n: nat)
    requires History(states, events, limit) && m <= n < |states| && states[0].status.Active?
    requires forall i | m <= i < n :: !events[i].Succeeded? && !events[i].ResetCalled?
    ensures states[n].failureCount == states[m].failureCount + Failures(events[m..n])
    decreases n
  {
    if m == n {
      assert events[m..n] == [];
    } else {
      CountGrows(states, events, limit, m, n - 1);
      assert states[n] == Apply(states[n - 1], events[n - 1], limit);
      assert events[m..n][..|events[m..n]| - 1] == events[m..n - 1];
    }
  }

  // Position i follows the last success between m and n.
  ghost predicate AfterLastSuccess(events: seq<Event>, m: nat, i: nat, n: nat)
    requires n <= |events|
  {
    m < i <= n && events[i - 1].Succeeded? && forall j | i <= j < n :: !events[j].Succeeded?
  }

  lemma {:induction false} LastSuccess(events: seq<Event>, m: nat, n: nat) returns (i: nat)
    requires m <= n <= |events| && exists j :: m <= j < n && events[j].Succeeded?
    ensures AfterLastSuccess(events, m, i, n)
    decreases n - m
  {
    if events[n - 1].Succeeded? {
      i := n;
    } else {
      i := LastSuccess(events, m, n - 1);
    }
  }

  // From a trip on, until somebody resets it, an instance has a full count exactly if no success came since, or
  // a full number of failures came after the last one.
  lemma TrippedCountIsFullIff(states: seq<State>, events: seq<Event>, limit: nat, m: nat, n: nat)
    requires History(states, events, limit) && m <= n < |states| && states[0].status.Active?
    requires Resettable(states[m]) && states[m].failureCount >= limit
    requires forall i | m <= i < n :: !events[i].ResetCalled?
    ensures states[n].failureCount >= limit <==>
              (forall i | m <= i < n :: !events[i].Succeeded?) ||
              exists i: nat :: AfterLastSuccess(events, m, i, n) && Failures(events[i..n]) >= limit
  {
    forall i: nat | AfterLastSuccess(events, m, i, n)
      ensures states[n].failureCount == Failures(events[i..n])
    {
      assert states[i] == Apply(states[i - 1], events[i - 1], limit);
      CountGrows(states, events, limit, i, n);
    }
    if exists i :: m <= i < n && events[i].Succeeded? {
      var i := LastSuccess(events, m, n);
      assert AfterLastSuccess(events, m, i, n);
    } else {
      CountGrows(states, events, limit, m, n);
    }
  }

  // Only a reset revives, and only what the breaker disabled.
  lemma OnlyResetRevives(states: seq<State>, events: seq<Event>, limit: nat, n: nat)
    requires History(states, events, limit) && n < |events|
    ensures !states[n].status.Active? && states[n + 1].status.Active? <==>
              events[n].ResetCalled? && states[n].disabledKind == Some(ByBreaker)
  {
    HistoriesKeepTheInvariant(states, events, limit, n);
    HistoriesKeepTheInvariant(states, events, limit, n + 1);
    assert states[n + 1] == Apply(states[n], events[n], limit);
  }

  ghost predicate WithoutErrorHooks(full: seq<Event>, rest: seq<Event>)
    decreases |full|
  {
    if full == [] then rest == []
    else
      var last := full[|full| - 1];
      if last.ErrorHookFailed? then WithoutErrorHooks(full[..|full| - 1], rest)
      else rest != [] && rest[|rest| - 1] == last && WithoutErrorHooks(full[..|full| - 1], rest[..|rest| - 1])
  }

  function StateAfter(s: State, events: seq<Event>, limit: nat): State
    decreases |events|
  {
    if events == [] then s else Apply(StateAfter(s, events[..|events| - 1], limit), events[|events| - 1], limit)
  }

  lemma {:induction false} HistoriesRunTheirEvents(states: seq<State>, events: seq<Event>, limit: nat, n: nat)
    requires History(states, events, limit) && n < |states|
    ensures states[n] == StateAfter(states[0], events[..n], limit)
  {
    if n > 0 {
      HistoriesRunTheirEvents(states, events, limit, n - 1);
      assert events[..n][..n - 1] == events[..n - 1];
      assert states[n] == Apply(states[n - 1], events[n - 1], limit);
    }
  }

  // Leaving all error-hook failures out of a history changes nothing but the last error.
  lemma {:induction false} ErrorHooksDoNotCount(s: State, full: seq<Event>, rest: seq<Event>, limit: nat)
    requires WithoutErrorHooks(full, rest)
    ensures var a, b := StateAfter(s, full, limit), StateAfter(s, rest, limit);
            a.status == b.status && a.failureCount == b.failureCount && a.disabledKind == b.disabledKind
    decreases |full|
  {
    if full != [] {
      var last, front := full[|full| - 1], full[..|full| - 1];
      ErrorHooksDoNotCount(s, front, if last.ErrorHookFailed? then rest else rest[..|rest| - 1], limit);
    }
  }

  // A tripped instance need not have a high count: a success that was under way when it tripped zeroes it.
  lemma LateSuccessZeroesATrippedCount(limit: nat, hook: Hook)
    requires limit > 0
    ensures exists states: seq<State>, events: seq<Event> ::
              History(states, events, limit) && Resettable(states[|events|]) && states[|events|].failureCount == 0
  {
    var states, events := [State(Active, 0, None, None)], [];
    while |events| < limit
      invariant History(states, events, limit) && |events| <= limit && states[0].status.Active?
      invariant states[|events|].failureCount == |events|
      invariant |events| == limit ==> Resettable(states[|events|])
    {
      states := states + [FailIn(states[|events|], hook, limit)];
      events := events + [FailedIn(hook)];
    }
    states, events := states + [Succeed(states[|events|])], events + [Succeeded];
    assert History(states, events, limit);
  }
}
