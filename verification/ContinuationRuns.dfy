// Runs of a connection in which a delta and a replay differ.
module ContinuationRuns {
  import opened Prelude
  import opened ResponsesSessions
  import opened Continuation

  // Two turns over one socket, the second sent as a delta. The upstream produces `produced` in the first and
  // the gateway records `recorded`; the second brings `current`.
  datatype Story = Story(d: DeploymentId, p: PublicId, q: PublicId, u: UpstreamId, w: UpstreamId,
                         produced: seq<Item>, recorded: seq<Item>, current: seq<Item>)
  {
    function Steps(): seq<Step> {
      [Begin(None, [], true), Try(d, true, true), Generate(produced, recorded, Some(u)), Finish(p, true),
       FinalId(Callback(0, p, Some(u))), Begin(Some(p), current, true), Try(d, true, true),
       Generate([], [], Some(w)), Finish(q, true)]
    }

    function First(): Completed {
      Completed([], [], true, recorded, Some([]), produced, None, 0, Some(0), Some(u))
    }

    function Second(): Completed {
      Completed(Expand(recorded + current), current, true, [], Some(produced + current), [], Some(p), 1, Some(0), Some(w))
    }

    function Begun(): Connection {
      INITIAL.(turn := Some(Turn(None, [], true, [], None)))
    }

    function Routed(): Connection {
      Begun().(bindings := map[d := Slot(0, false, None, None)], nextSession := 1,
               turn := Some(Turn(None, [], true, [], Some(Attempt(d, OverSocket(0, Request(None, [])), None)))))
    }

    function Answered(): Connection {
      var answer := Answer(Some([]), produced, recorded, Some(u));
      Routed().(turn := Some(Turn(None, [], true, [], Some(Attempt(d, OverSocket(0, Request(None, [])), Some(answer))))),
                conversations := map[(0, u) := produced], remembered := {(0, u)})
    }

    function Committed(): Connection {
      Answered().(turn := None, state := Some(ConnectionState(p, Stored([], recorded))),
                  stored := map[p := Stored([], recorded)], pending := {Callback(0, p, Some(u))}, issued := {p},
                  log := map[p := First()])
    }

    function Paired(): Connection {
      Committed().(pending := {}, bindings := map[d := Slot(0, false, Some(p), Some(u))])
    }

    function Continued(a: Option<Attempt>): Connection {
      Paired().(turn := Some(Turn(Some(p), current, true, Expand(recorded + current), a)))
    }

    function Delta(): Route {
      OverSocket(0, Request(Some(u), current))
    }

    function Sent(): Connection {
      Continued(Some(Attempt(d, Delta(), None))).(nextSession := 2)
    }

    function Read(): Connection {
      Continued(Some(Attempt(d, Delta(), Some(Answer(Some(produced + current), [], [], Some(w)))))).(
        nextSession := 2, conversations := map[(0, u) := produced, (0, w) := produced + current],
        remembered := {(0, u), (0, w)})
    }

    lemma FirstSteps()
      ensures Enabled(INITIAL, Steps()[0]) && Apply(INITIAL, Steps()[0]) == Begun()
      ensures Enabled(Begun(), Steps()[1]) && Apply(Begun(), Steps()[1]) == Routed()
      ensures Enabled(Routed(), Steps()[2]) && Apply(Routed(), Steps()[2]) == Answered()
    {
      assert [] + produced == produced;
    }

    lemma FirstCommit()
      ensures Enabled(Answered(), Steps()[3]) && Apply(Answered(), Steps()[3]) == Committed()
    {
    }

    lemma IdArrives()
      ensures Enabled(Committed(), Steps()[4]) && Apply(Committed(), Steps()[4]) == Paired()
    {
    }

    lemma SecondSteps()
      requires u != w
      ensures Enabled(Paired(), Steps()[5]) && Apply(Paired(), Steps()[5]) == Continued(None)
      ensures Enabled(Continued(None), Steps()[6]) && Apply(Continued(None), Steps()[6]) == Sent()
    {
      assert [] + recorded + current == recorded + current;
    }

    lemma SecondAnswer()
      requires u != w
      ensures Enabled(Sent(), Steps()[7]) && Apply(Sent(), Steps()[7]) == Read()
    {
      assert (produced + current) + [] == produced + current;
    }

    lemma SecondCommit()
      requires p != q
      ensures Enabled(Read(), Steps()[8])
      ensures Apply(Read(), Steps()[8]).log == map[p := First(), q := Second()]
    {
      assert |map[p := First()]| == 1;
    }

    lemma FirstTurn() returns (states: seq<Connection>)
      ensures |Steps()| == 9
      ensures |states| == 6 && states[5] == Paired() && IsRun(states, Steps()[..5])
    {
      hide Apply, Enabled, IsRun;
      FirstSteps();
      FirstCommit();
      IdArrives();
      var steps := Steps();
      assert |steps| == 9;
      hide Story.Steps, Story.Begun, Story.Routed, Story.Answered, Story.Committed, Story.Paired;
      NoSteps(steps);
      states := OneMoreStep([INITIAL], steps, Begun());
      states := OneMoreStep(states, steps, Routed());
      states := OneMoreStep(states, steps, Answered());
      states := OneMoreStep(states, steps, Committed());
      states := OneMoreStep(states, steps, Paired());
    }

    // The run exists, and its second turn was sent as a delta.
    lemma Happens()
      requires p != q && u != w
      ensures exists states: seq<Connection> :: IsRun(states, Steps()) && states[9].log == map[p := First(), q := Second()]
    {
      hide Apply, Enabled, IsRun;
      hide Story.Steps, Story.First, Story.Second, Story.Paired, Story.Continued, Story.Sent, Story.Read;
      var states := FirstTurn();
      SecondSteps();
      SecondAnswer();
      SecondCommit();
      var steps := Steps();
      states := OneMoreStep(states, steps, Continued(None));
      states := OneMoreStep(states, steps, Sent());
      states := OneMoreStep(states, steps, Read());
      states := OneMoreStep(states, steps, Apply(Read(), steps[8]));
      assert steps[..9] == steps;
    }
  }

  lemma NoSteps(steps: seq<Step>)
    ensures IsRun([INITIAL], steps[..0])
  {
  }

  lemma OneMoreStep(states: seq<Connection>, steps: seq<Step>, next: Connection) returns (more: seq<Connection>)
    requires 0 < |states| <= |steps| && IsRun(states, steps[..|states| - 1])
    requires var k := |states| - 1; Enabled(states[k], steps[k]) && Apply(states[k], steps[k]) == next
    ensures |more| == |states| + 1 && more[|states|] == next && IsRun(more, steps[..|states|])
  {
    hide Apply, Enabled;
    more := states + [next];
  }

  // A sealed item sent with a delta stays sealed upstream: the conversations agree once opened only.
  lemma SealedItemStaysSealed(s: Story, envelope: string, summary: string)
    requires s.p != s.q && s.u != s.w && s.produced == s.recorded == []
    requires s.current == [Compaction(envelope, Some(summary))]
    ensures exists states: seq<Connection> ::
              IsRun(states, s.Steps()) && s.q in states[9].log && Agrees(states[9].log[s.q]) && !Same(states[9].log[s.q])
  {
    s.Happens();
    var states: seq<Connection> :| IsRun(states, s.Steps()) && states[9].log == map[s.p := s.First(), s.q := s.Second()];
    assert s.produced + s.current == s.recorded + s.current == s.current;
    assert Expandable(s.current[0]);
    ExpandIsIdentityIffNothingSealed(s.current);
    assert Agrees(states[9].log[s.q]) && !Same(states[9].log[s.q]);
  }

  // An extension that rewrites what is recorded makes the next delta read another conversation than the one the
  // gateway holds.
  lemma RewritingSeparates(s: Story, said: string, recorded: string)
    requires s.p != s.q && s.u != s.w && s.current == [] && said != recorded
    requires s.produced == [Plain(said)] && s.recorded == [Plain(recorded)]
    ensures exists states: seq<Connection> ::
              IsRun(states, s.Steps()) && s.q in states[9].log && !Agrees(states[9].log[s.q])
  {
    s.Happens();
    var states: seq<Connection> :| IsRun(states, s.Steps()) && states[9].log == map[s.p := s.First(), s.q := s.Second()];
    assert s.produced + s.current == s.produced && s.recorded + s.current == s.recorded;
    assert Expand(s.produced)[0] == Plain(said) && Expand(s.recorded)[0] == Plain(recorded);
    assert !Agrees(states[9].log[s.q]);
  }
}
