/**
 * The distributor as a state machine on values: its configuration (the
 * `writeable` flag and the receiver registry), the calls it accepts, which
 * of them are allowed in which configuration, and what each call delivers to
 * each sink. Traces of calls are folded with Run and Received, and the
 * lifecycle guarantees are proved about every trace.
 */
module Lifecycle {
  import opened Sinks

  /** Either the call went through, or it threw IllegalStateException. */
  datatype Outcome = Ok | IllegalState

  /**
   * The distributor's own state. `receivers` maps each registered sink to
   * its closeWithDistributor policy; a sink mapped to false is survivable.
   */
  datatype Config = Config(writeable: bool, receivers: map<Sink, bool>)

  /** A freshly constructed distributor: not writeable, no receivers. */
  const Initial := Config(false, map[])

  /** The public operations of the distributor. */
  datatype Call =
    | AddReceiver(receiver: Sink, closeWithDistributor: bool)
    | SetWriteable(flag: bool)
    | Stream(e: Event)   // write(int), write(byte[]), write(byte[], int, int), flush(), close()

  /** The lifecycle guard: registration only before, streaming only while writeable. */
  predicate Allowed(c: Config, call: Call) {
    match call
    case AddReceiver(_, _) => !c.writeable
    case SetWriteable(_) => true
    case Stream(_) => c.writeable
  }

  /** The effect of one call on the distributor's configuration. */
  function Step(c: Config, call: Call): (r: (Outcome, Config))
    ensures r.0 == Ok <==> Allowed(c, call)
    ensures r.0 == IllegalState ==> r.1 == c
    ensures !call.AddReceiver? ==> r.1.receivers == c.receivers
    ensures call.AddReceiver? && r.0 == Ok ==>
      && r.1.writeable == c.writeable
      && r.1.receivers.Keys == c.receivers.Keys + {call.receiver}
      && r.1.receivers[call.receiver] == call.closeWithDistributor
      && forall s :: s in c.receivers && s != call.receiver ==> r.1.receivers[s] == c.receivers[s]
    ensures call.SetWriteable? ==> r.1.writeable == call.flag
    ensures call.Stream? && r.0 == Ok ==> r.1.writeable == !call.e.Close?
  {
    match call
    case AddReceiver(s, p) =>
      if c.writeable then (IllegalState, c) else (Ok, c.(receivers := c.receivers[s := p]))
    case SetWriteable(w) =>
      (Ok, c.(writeable := w))
    case Stream(e) =>
      if !c.writeable then (IllegalState, c)
      else if e.Close? then (Ok, c.(writeable := false))
      else (Ok, c)
  }

  /**
   * What sink `s` receives from the distributor during one call: write and
   * flush reach every registered sink, close reaches the registered sinks
   * whose policy is true, and nothing reaches anyone when the call fails.
   */
  function Delivered(c: Config, call: Call, s: Sink): (log: Log)
    ensures log == [] || (call.Stream? && log == [call.e])
    ensures log != [] <==>
      && Step(c, call).0 == Ok
      && call.Stream?
      && s in c.receivers
      && (call.e.Close? ==> c.receivers[s])
  {
    if call.Stream? && c.writeable && s in c.receivers && (call.e.Close? ==> c.receivers[s])
    then [call.e]
    else []
  }

  /** The outcomes of a trace of calls, and the configuration it ends in. */
  function Run(c: Config, calls: seq<Call>): (r: (seq<Outcome>, Config))
    ensures |r.0| == |calls|
    decreases |calls|
  {
    if calls == [] then ([], c)
    else
      var (o, next) := Step(c, calls[0]);
      var (rest, last) := Run(next, calls[1..]);
      ([o] + rest, last)
  }

  /** Everything sink `s` receives from the distributor during a trace. */
  function Received(c: Config, calls: seq<Call>, s: Sink): (log: Log)
    ensures |log| <= |calls|
    decreases |calls|
  {
    if calls == [] then [] else Delivered(c, calls[0], s) + Received(Step(c, calls[0]).1, calls[1..], s)
  }

  /** The stream events of a trace, in call order. */
  function StreamEvents(calls: seq<Call>): (es: seq<Event>)
    ensures |es| <= |calls|
    ensures forall e :: e in es <==> Stream(e) in calls
  {
    if calls == [] then []
    else (if calls[0].Stream? then [calls[0].e] else []) + StreamEvents(calls[1..])
  }

  /** No call of the trace makes the distributor writeable again. */
  predicate NoReopen(calls: seq<Call>) {
    forall i :: 0 <= i < |calls| ==> calls[i] != SetWriteable(true)
  }

  /** No call of the trace clears the writeable flag. */
  predicate KeepsSealed(calls: seq<Call>) {
    forall i :: 0 <= i < |calls| ==> calls[i] != SetWriteable(false) && calls[i] != Stream(Close)
  }

  /**
   * While the distributor is not writeable, and nothing makes it writeable,
   * every write, flush and close fails and no sink receives anything.
   */
  lemma {:induction false} UnwritableStaysSilent(c: Config, calls: seq<Call>, s: Sink)
    requires !c.writeable
    requires NoReopen(calls)
    ensures Received(c, calls, s) == []
    ensures !Run(c, calls).1.writeable
    ensures forall i :: 0 <= i < |calls| && calls[i].Stream? ==> Run(c, calls).0[i] == IllegalState
    decreases |calls|
  {
    if calls != [] {
      var next := Step(c, calls[0]).1;
      assert NoReopen(calls[1..]) by {
        forall i | 0 <= i < |calls| - 1 ensures calls[1..][i] != SetWriteable(true) {
          assert calls[1..][i] == calls[i + 1];
        }
      }
      UnwritableStaysSilent(next, calls[1..], s);
      var outcomes := Run(c, calls).0;
      assert outcomes == [Step(c, calls[0]).0] + Run(next, calls[1..]).0;
      forall i | 0 <= i < |calls| && calls[i].Stream? ensures outcomes[i] == IllegalState {
        if i > 0 {
          assert calls[1..][i - 1] == calls[i];
        }
      }
    }
  }

  /**
   * After a successful close, as long as nobody sets the flag back to
   * true, a second close, and every write and flush, fails, and no sink
   * receives anything more.
   */
  lemma CloseIsFinal(c: Config, calls: seq<Call>, s: Sink)
    requires Step(c, Stream(Close)).0 == Ok
    requires NoReopen(calls)
    ensures Received(Step(c, Stream(Close)).1, calls, s) == []
    ensures forall i :: 0 <= i < |calls| && calls[i].Stream? ==>
      Run(Step(c, Stream(Close)).1, calls).0[i] == IllegalState
  {
    UnwritableStaysSilent(Step(c, Stream(Close)).1, calls, s);
  }

  /** As long as the distributor is not reopened, a sink is closed by it at most once. */
  lemma {:induction false} ClosedAtMostOnce(c: Config, calls: seq<Call>, s: Sink)
    requires NoReopen(calls)
    ensures Count(Received(c, calls, s), Close) <= 1
    decreases |calls|
  {
    if calls != [] {
      var (o, next) := Step(c, calls[0]);
      var first := Delivered(c, calls[0], s);
      var rest := Received(next, calls[1..], s);
      assert NoReopen(calls[1..]) by {
        forall i | 0 <= i < |calls| - 1 ensures calls[1..][i] != SetWriteable(true) {
          assert calls[1..][i] == calls[i + 1];
        }
      }
      CountAppend(first, rest, Close);
      if calls[0] == Stream(Close) && o == Ok {
        UnwritableStaysSilent(next, calls[1..], s);
      } else {
        assert Count(first, Close) == 0;
        ClosedAtMostOnce(next, calls[1..], s);
      }
    }
  }

  /**
   * A survivable sink is never closed by the distributor: a sink that is
   * unregistered or registered with policy false, and that no call of the
   * trace registers with policy true, never receives close.
   */
  lemma {:induction false} SurvivorNeverClosed(c: Config, calls: seq<Call>, s: Sink)
    requires s in c.receivers ==> !c.receivers[s]
    requires forall i :: 0 <= i < |calls| ==> calls[i] != AddReceiver(s, true)
    ensures Close !in Received(c, calls, s)
    decreases |calls|
  {
    if calls != [] {
      var next := Step(c, calls[0]).1;
      assert Close !in Delivered(c, calls[0], s);
      assert calls[0] != AddReceiver(s, true);
      forall i | 0 <= i < |calls| - 1 ensures calls[1..][i] != AddReceiver(s, true) {
        assert calls[1..][i] == calls[i + 1];
      }
      SurvivorNeverClosed(next, calls[1..], s);
    }
  }

  /**
   * While writeable and as long as nothing clears the flag, the registry is
   * frozen: every registration fails and the configuration does not change.
   */
  lemma {:induction false} SealedRegistryFrozen(c: Config, calls: seq<Call>)
    requires c.writeable
    requires KeepsSealed(calls)
    ensures Run(c, calls).1 == c
    ensures forall i :: 0 <= i < |calls| && calls[i].AddReceiver? ==> Run(c, calls).0[i] == IllegalState
  {
    if calls != [] {
      assert Step(c, calls[0]).1 == c;
      assert KeepsSealed(calls[1..]) by {
        forall i | 0 <= i < |calls| - 1
          ensures calls[1..][i] != SetWriteable(false) && calls[1..][i] != Stream(Close)
        {
          assert calls[1..][i] == calls[i + 1];
        }
      }
      SealedRegistryFrozen(c, calls[1..]);
      var outcomes := Run(c, calls).0;
      assert outcomes == [Step(c, calls[0]).0] + Run(c, calls[1..]).0;
      forall i | 0 <= i < |calls| && calls[i].AddReceiver? ensures outcomes[i] == IllegalState {
        if i > 0 {
          assert calls[1..][i - 1] == calls[i];
        }
      }
    }
  }

  /**
   * Fan-out: while writeable and as long as nothing clears the flag, every
   * registered sink receives every write and flush of the trace, each
   * exactly once and in call order.
   */
  lemma {:induction false} SealedSinkSeesEveryEvent(c: Config, calls: seq<Call>, s: Sink)
    requires c.writeable && s in c.receivers
    requires KeepsSealed(calls)
    ensures Received(c, calls, s) == StreamEvents(calls)
  {
    if calls != [] {
      assert Step(c, calls[0]).1 == c;
      assert KeepsSealed(calls[1..]) by {
        forall i | 0 <= i < |calls| - 1
          ensures calls[1..][i] != SetWriteable(false) && calls[1..][i] != Stream(Close)
        {
          assert calls[1..][i] == calls[i + 1];
        }
      }
      SealedSinkSeesEveryEvent(c, calls[1..], s);
    }
  }

  /** A sink that is not registered, and that no call registers, receives nothing. */
  lemma {:induction false} UnregisteredSinkUntouched(c: Config, calls: seq<Call>, s: Sink)
    requires s !in c.receivers
    requires forall i :: 0 <= i < |calls| ==> !(calls[i].AddReceiver? && calls[i].receiver == s)
    ensures Received(c, calls, s) == []
    decreases |calls|
  {
    if calls != [] {
      var next := Step(c, calls[0]).1;
      assert s !in next.receivers;
      forall i | 0 <= i < |calls| - 1
        ensures !(calls[1..][i].AddReceiver? && calls[1..][i].receiver == s)
      {
        assert calls[1..][i] == calls[i + 1];
      }
      UnregisteredSinkUntouched(next, calls[1..], s);
    }
  }

  /**
   * close() clears the same flag that guards registration, so straight after
   * a successful close a receiver can be registered again.
   */
  lemma RegistrationAfterClose(c: Config, s: Sink, p: bool)
    requires c.writeable
    ensures Step(Step(c, Stream(Close)).1, AddReceiver(s, p)).0 == Ok
  {
  }

  /**
   * Nothing stops setWriteable(true) after close(): writes flow again, and a
   * second close closes every sink with policy true a second time.
   */
  lemma ReopenClosesAgain(c: Config, s: Sink, e: Event)
    requires c.writeable && s in c.receivers && c.receivers[s]
    requires !e.Close?
    ensures Received(c, [Stream(Close), SetWriteable(true), Stream(e), Stream(Close)], s)
      == [Close, e, Close]
    ensures Count(Received(c, [Stream(Close), SetWriteable(true), Stream(Close)], s), Close) == 2
  {
    var closed := c.(writeable := false);
    var reopened := c;
    assert Step(c, Stream(Close)).1 == closed;
    assert Step(closed, SetWriteable(true)).1 == reopened;
    var calls := [Stream(Close), SetWriteable(true), Stream(e), Stream(Close)];
    assert Received(reopened, calls[3..], s) == [Close] by {
      assert calls[3..][1..] == [];
    }
    assert Received(reopened, calls[2..], s) == [e] + [Close] by {
      assert calls[2..][1..] == calls[3..];
    }
    assert Received(closed, calls[1..], s) == [e, Close] by {
      assert calls[1..][1..] == calls[2..];
    }
    var closes := [Stream(Close), SetWriteable(true), Stream(Close)];
    assert Received(reopened, closes[2..], s) == [Close] by {
      assert closes[2..][1..] == [];
    }
    assert Received(closed, closes[1..], s) == [Close] by {
      assert closes[1..][1..] == closes[2..];
    }
    assert Received(c, closes, s) == [Close, Close];
  }
}
