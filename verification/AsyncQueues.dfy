// The single-consumer queue between socket callbacks and a turn's reader. The value-level queue is
// what the class is proved against; its history says which push answered which call of next.
module AsyncQueues {
  import opened Prelude

  // What one call of next is settled with. A failure may carry the undefined value, written None.
  datatype Answer<+T, +E> = Value(value: T) | Done | Failed(error: Option<E>)

  datatype Queue<+T, +E> = Queue(
    values: seq<T>,
    waiters: seq<nat>,
    failure: Option<E>,
    ended: bool,
    // history: the pushes that were taken, and for every call of next its settlement, if any
    accepted: seq<T>,
    answers: seq<Option<Answer<T, E>>>)

  function Empty<T, E>(): Queue<T, E> {
    Queue([], [], None, false, [], [])
  }

  predicate WellFormed<T, E>(q: Queue<T, E>) {
    forall i | 0 <= i < |q.waiters| :: q.waiters[i] < |q.answers|
  }

  predicate Open<T, E>(q: Queue<T, E>) {
    !q.ended && q.failure.None?
  }

  function Settle<T, E>(answers: seq<Option<Answer<T, E>>>, waiters: seq<nat>, a: Answer<T, E>)
    : (r: seq<Option<Answer<T, E>>>)
    ensures |r| == |answers|
    ensures forall i: nat | i < |answers| :: r[i] == if i in waiters then Some(a) else answers[i]
  {
    seq(|answers|, i requires 0 <= i < |answers| => if i in waiters then Some(a) else answers[i])
  }

  function Push<T, E>(q: Queue<T, E>, value: T): (r: Queue<T, E>)
    requires WellFormed(q)
    ensures WellFormed(r)
  {
    if q.ended || q.failure.Some? then q
    else if |q.waiters| > 0 then
      q.(waiters := q.waiters[1..], accepted := q.accepted + [value],
         answers := q.answers[q.waiters[0] := Some(Value(value))])
    else q.(values := q.values + [value], accepted := q.accepted + [value])
  }

  function End<T, E>(q: Queue<T, E>): (r: Queue<T, E>)
    requires WellFormed(q)
    ensures WellFormed(r)
  {
    if q.ended then q
    else q.(ended := true, waiters := [], answers := Settle(q.answers, q.waiters, Done))
  }

  function Fail<T, E>(q: Queue<T, E>, error: Option<E>): (r: Queue<T, E>)
    requires WellFormed(q)
    ensures WellFormed(r)
  {
    if q.ended || q.failure.Some? then q
    else q.(failure := error, waiters := [], answers := Settle(q.answers, q.waiters, Failed(error)))
  }

  function Next<T, E>(q: Queue<T, E>): (r: Queue<T, E>)
    requires WellFormed(q)
    ensures WellFormed(r) && |r.answers| == |q.answers| + 1
  {
    if |q.values| > 0 then q.(values := q.values[1..], answers := q.answers + [Some(Value(q.values[0]))])
    else if q.failure.Some? then q.(answers := q.answers + [Some(Failed(q.failure))])
    else if q.ended then q.(answers := q.answers + [Some(Done)])
    else q.(waiters := q.waiters + [|q.answers|], answers := q.answers + [None])
  }

  class AsyncQueue<T(==), E(==)> {
    var values: seq<T>
    var waiters: seq<nat>
    var failure: Option<E>
    var ended: bool
    // the promises handed out, in order of the calls; a waiter is the number of its promise
    var answers: seq<Option<Answer<T, E>>>
    ghost var accepted: seq<T>

    ghost function Model(): Queue<T, E>
      reads this
    {
      Queue(values, waiters, failure, ended, accepted, answers)
    }

    constructor ()
      ensures Model() == Empty()
    {
      values, waiters, failure, ended := [], [], None, false;
      accepted, answers := [], [];
    }

    method PushValue(value: T)
      requires WellFormed(Model())
      modifies this
      ensures Model() == Push(old(Model()), value)
    {
      if ended || failure.Some? { return; }
      if |waiters| > 0 {
        answers := answers[waiters[0] := Some(Value(value))];
        waiters := waiters[1..];
      } else {
        values := values + [value];
      }
      accepted := accepted + [value];
    }

    method EndQueue()
      requires WellFormed(Model())
      modifies this
      ensures Model() == End(old(Model()))
    {
      if ended { return; }
      ended := true;
      answers := Settle(answers, waiters, Done);
      waiters := [];
    }

    method FailQueue(error: Option<E>)
      requires WellFormed(Model())
      modifies this
      ensures Model() == Fail(old(Model()), error)
    {
      if ended || failure.Some? { return; }
      failure := error;
      answers := Settle(answers, waiters, Failed(error));
      waiters := [];
    }

    // Returns the settlement at once when there is one; otherwise the call becomes a waiter.
    method NextValue() returns (settled: Option<Answer<T, E>>)
      requires WellFormed(Model())
      modifies this
      ensures Model() == Next(old(Model())) && settled == answers[|answers| - 1]
    {
      if |values| > 0 {
        settled := Some(Value(values[0]));
        values := values[1..];
      } else if failure.Some? {
        settled := Some(Failed(failure));
      } else if ended {
        settled := Some(Done);
      } else {
        settled := None;
        waiters := waiters + [|answers|];
      }
      answers := answers + [settled];
    }
  }

  // --- Every interleaving ------------------------------------------------------------------------

  datatype Op<+T, +E> = DoPush(value: T) | DoEnd | DoFail(error: Option<E>) | DoNext

  function ApplyOp<T, E>(q: Queue<T, E>, op: Op<T, E>): (r: Queue<T, E>)
    requires WellFormed(q)
    ensures WellFormed(r)
  {
    match op
    case DoPush(value) => Push(q, value)
    case DoEnd => End(q)
    case DoFail(error) => Fail(q, error)
    case DoNext => Next(q)
  }

  function RunOps<T, E>(ops: seq<Op<T, E>>): (r: Queue<T, E>)
    ensures WellFormed(r)
  {
    if ops == [] then Empty() else ApplyOp(RunOps(ops[..|ops| - 1]), ops[|ops| - 1])
  }

  function Closing<T, E>(q: Queue<T, E>): Option<Answer<T, E>> {
    if q.failure.Some? then Some(Failed(q.failure)) else if q.ended then Some(Done) else None
  }

  // The k-th call of next gets the k-th accepted push; once those run out, the closing answer.
  function Due<T, E>(q: Queue<T, E>, k: nat): Option<Answer<T, E>> {
    if k < |q.accepted| then Some(Value(q.accepted[k])) else Closing(q)
  }

  function Backlog<T, E>(q: Queue<T, E>): seq<T> {
    if |q.accepted| >= |q.answers| then q.accepted[|q.answers|..] else []
  }

  function Unserved<T, E>(q: Queue<T, E>): seq<nat> {
    if Open(q) && |q.accepted| < |q.answers| then seq(|q.answers| - |q.accepted|, i => |q.accepted| + i) else []
  }

  ghost predicate InOrder<T, E>(q: Queue<T, E>) {
    (forall k: nat | k < |q.answers| :: q.answers[k] == Due(q, k)) &&
    q.values == Backlog(q) && q.waiters == Unserved(q)
  }

  // The one operation that breaks the order: a failure without a value that meets a waiting reader.
  predicate LosesTheFailure<T, E>(q: Queue<T, E>, op: Op<T, E>) {
    op == DoFail(None) && Open(q) && |q.waiters| > 0
  }

  ghost predicate NoLostFailure<T, E>(ops: seq<Op<T, E>>) {
    forall i | 0 <= i < |ops| :: !LosesTheFailure(RunOps(ops[..i]), ops[i])
  }

  lemma PushKeeps<T, E>(q: Queue<T, E>, value: T)
    requires WellFormed(q) && InOrder(q)
    ensures InOrder(Push(q, value))
  {
    var r := Push(q, value);
    if Open(q) && |q.waiters| > 0 {
      assert q.waiters[0] == |q.accepted|;
      assert r.waiters == Unserved(r);
    }
  }

  lemma EndKeeps<T, E>(q: Queue<T, E>)
    requires WellFormed(q) && InOrder(q)
    ensures InOrder(End(q))
  {
    if !q.ended { WaitersAreUnserved(q); }
  }

  lemma FailKeeps<T, E>(q: Queue<T, E>, error: Option<E>)
    requires WellFormed(q) && InOrder(q) && !LosesTheFailure(q, DoFail(error))
    ensures InOrder(Fail(q, error))
  {
    if Open(q) { WaitersAreUnserved(q); }
  }

  lemma NextKeeps<T, E>(q: Queue<T, E>)
    requires WellFormed(q) && InOrder(q)
    ensures InOrder(Next(q))
  {
    var r := Next(q);
    assert r.values == Backlog(r);
    assert r.waiters == Unserved(r);
  }

  lemma WaitersAreUnserved<T, E>(q: Queue<T, E>)
    requires WellFormed(q) && InOrder(q)
    ensures forall k: nat | k < |q.answers| :: k in q.waiters <==> Open(q) && k >= |q.accepted|
  {
    forall k: nat | k < |q.answers| && Open(q) && k >= |q.accepted|
      ensures k in q.waiters
    {
      assert q.waiters[k - |q.accepted|] == k;
    }
  }

  // Delivery is exactly once and in order, and end or failure comes last, over every interleaving of
  // pushes, reads, ends and failures, if and only if no failure without a value meets a waiter.
  lemma {:induction false} DeliveryIsInOrder<T, E>(ops: seq<Op<T, E>>)
    requires NoLostFailure(ops)
    ensures InOrder(RunOps(ops))
  {
    if ops != [] {
      var before, last := ops[..|ops| - 1], ops[|ops| - 1];
      forall i | 0 <= i < |before|
        ensures !LosesTheFailure(RunOps(before[..i]), before[i])
      {
        assert before[..i] == ops[..i];
      }
      DeliveryIsInOrder(before);
      match last {
        case DoPush(value) => PushKeeps(RunOps(before), value);
        case DoEnd => EndKeeps(RunOps(before));
        case DoFail(error) =>
          assert ops[..|ops| - 1] == before;
          FailKeeps(RunOps(before), error);
        case DoNext => NextKeeps(RunOps(before));
      }
    }
  }

  // A reader settled with a failure that carries no value stays settled that way, which is never due.
  lemma LostFailureShows<T, E>(q: Queue<T, E>)
    requires WellFormed(q) && InOrder(q) && LosesTheFailure(q, DoFail(None))
    ensures SomeoneGotNothing(Fail(q, None))
  {
    var k := q.waiters[0];
    assert k in q.waiters;
    assert Fail(q, None).answers[k] == Some(Failed(None));
  }

  ghost predicate SomeoneGotNothing<T, E>(q: Queue<T, E>) {
    (forall i, j | 0 <= i < |q.waiters| && 0 <= j < |q.waiters| && i != j :: q.waiters[i] != q.waiters[j]) &&
    exists k: nat :: k < |q.answers| && q.answers[k] == Some(Failed(None)) && k !in q.waiters
  }

  lemma SomeoneStillGotNothing<T, E>(q: Queue<T, E>, op: Op<T, E>)
    requires WellFormed(q) && SomeoneGotNothing(q)
    ensures SomeoneGotNothing(ApplyOp(q, op))
  {
    var k: nat :| k < |q.answers| && q.answers[k] == Some(Failed(None)) && k !in q.waiters;
    var r := ApplyOp(q, op);
    assert k < |r.answers| && r.answers[k] == Some(Failed(None));
    assert k !in r.waiters;
  }

  lemma {:induction false} LostFailureForever<T, E>(ops: seq<Op<T, E>>, i: nat)
    requires i < |ops| && InOrder(RunOps(ops[..i])) && LosesTheFailure(RunOps(ops[..i]), ops[i])
    ensures SomeoneGotNothing(RunOps(ops))
  {
    hide SomeoneGotNothing, InOrder, WellFormed, Push, End, Fail, Next;
    var before := ops[..|ops| - 1];
    assert RunOps(ops) == ApplyOp(RunOps(before), ops[|ops| - 1]);
    if i == |before| {
      assert ops[..i] == before;
      LostFailureShows(RunOps(before));
    } else {
      assert before[..i] == ops[..i];
      LostFailureForever(before, i);
      SomeoneStillGotNothing(RunOps(before), ops[|ops| - 1]);
    }
  }

  lemma {:induction false} FirstLostFailure<T, E>(ops: seq<Op<T, E>>, from: nat) returns (i: nat)
    requires from <= |ops| && NoLostFailure(ops[..from]) && !NoLostFailure(ops)
    ensures i < |ops| && LosesTheFailure(RunOps(ops[..i]), ops[i]) && NoLostFailure(ops[..i])
    decreases |ops| - from
  {
    hide LosesTheFailure, RunOps, NoLostFailure;
    assert from < |ops| by { assert ops[..|ops|] == ops; }
    if LosesTheFailure(RunOps(ops[..from]), ops[from]) {
      i := from;
    } else {
      OneMoreOp(ops, from);
      i := FirstLostFailure(ops, from + 1);
    }
  }

  lemma OneMoreOp<T, E>(ops: seq<Op<T, E>>, i: nat)
    requires i < |ops| && NoLostFailure(ops[..i]) && !LosesTheFailure(RunOps(ops[..i]), ops[i])
    ensures NoLostFailure(ops[..i + 1])
  {
    hide RunOps, LosesTheFailure;
    var grown := ops[..i + 1];
    forall j | 0 <= j < |grown|
      ensures !LosesTheFailure(RunOps(grown[..j]), grown[j])
    {
      assert grown[..j] == ops[..j];
      if j < i {
        assert ops[..i][..j] == ops[..j];
        assert !LosesTheFailure(RunOps(ops[..i][..j]), ops[..i][j]);
      }
    }
  }

  // Order holds exactly on the runs in which no failure without a value meets a waiter.
  lemma OrderedIffNoLostFailure<T, E>(ops: seq<Op<T, E>>)
    ensures InOrder(RunOps(ops)) <==> NoLostFailure(ops)
  {
    if NoLostFailure(ops) {
      DeliveryIsInOrder(ops);
    } else {
      var i := FirstLostFailure(ops, 0);
      DeliveryIsInOrder(ops[..i]);
      LostFailureForever(ops, i);
      NothingIsNeverDue(RunOps(ops));
    }
  }

  lemma NothingIsNeverDue<T, E>(q: Queue<T, E>)
    requires SomeoneGotNothing(q)
    ensures !InOrder(q)
  {
    var k: nat :| k < |q.answers| && q.answers[k] == Some(Failed(None)) && k !in q.waiters;
    assert Due(q, k) != Some(Failed(None));
  }

  // Values and waiters are never held together, on any run.
  lemma {:induction false} NeverBothHeld<T, E>(ops: seq<Op<T, E>>)
    ensures |RunOps(ops).values| == 0 || |RunOps(ops).waiters| == 0
  {
    if ops != [] { NeverBothHeld(ops[..|ops| - 1]); }
  }

  // A run that loses a failure: the waiter gets it, and what is pushed afterwards is still delivered.
  lemma FailureThenValue<T, E>(value: T)
    ensures var ops: seq<Op<T, E>> := [DoNext, DoFail(None), DoPush(value), DoNext];
            RunOps(ops).answers == [Some(Failed(None)), Some(Value(value))] && !NoLostFailure(ops)
  {
    var ops: seq<Op<T, E>> := [DoNext, DoFail(None), DoPush(value), DoNext];
    var empty: Queue<T, E> := Empty();
    OneMore(ops[..0], DoNext, empty);
    assert ops[..1] == ops[..0] + [DoNext];
    var asked := Next(empty);
    assert asked.waiters == [0] && asked.answers == [None];
    assert LosesTheFailure(RunOps(ops[..1]), ops[1]);
    OneMore(ops[..1], DoFail(None), asked);
    assert ops[..2] == ops[..1] + [DoFail(None)];
    var lost := Fail(asked, None);
    assert lost.waiters == [] && lost.answers == [Some(Failed(None))];
    OneMore(ops[..2], DoPush(value), lost);
    assert ops[..3] == ops[..2] + [DoPush(value)];
    var pushed := Push(lost, value);
    OneMore(ops[..3], DoNext, pushed);
    assert ops == ops[..3] + [DoNext];
  }

  lemma OneMore<T, E>(ops: seq<Op<T, E>>, op: Op<T, E>, q: Queue<T, E>)
    requires RunOps(ops) == q
    ensures WellFormed(q) && RunOps(ops + [op]) == ApplyOp(q, op)
  {
    assert (ops + [op])[..|ops|] == ops;
  }
}
