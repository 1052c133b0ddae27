/**
 * The distributing output stream itself: a mutable `writeable` flag and a
 * registry of receivers, each mapped to its closeWithDistributor policy.
 * Every method is proved against the state machine of module Lifecycle:
 * its outcome and the new configuration are those of Step, and every
 * registered sink's record grows by exactly what Delivered says.
 * A thrown IllegalStateException is the outcome IllegalState.
 */
module Distributor {
  import opened Sinks
  import opened Lifecycle

  class DistributingOutputStream {
    var writeable: bool
    var receivers: map<Sink, bool>

    /** The configuration this object is in. */
    function State(): Config
      reads this
    {
      Config(writeable, receivers)
    }

    constructor ()
      ensures State() == Initial
    {
      writeable := false;
      receivers := map[];
    }

    /** Registers `receiver` with the given close policy; only allowed while not writeable. */
    method AddReceiver(receiver: Sink, closeWithDistributor: bool) returns (outcome: Outcome)
      modifies this
      ensures (outcome, State()) == Step(old(State()), Call.AddReceiver(receiver, closeWithDistributor))
    {
      if !writeable {
        receivers := receivers[receiver := closeWithDistributor];
        outcome := Ok;
      } else {
        outcome := IllegalState;
      }
    }

    /** Registers `receiver` to be closed along with the distributor. */
    method AddClosingReceiver(receiver: Sink) returns (outcome: Outcome)
      modifies this
      ensures (outcome, State()) == Step(old(State()), Call.AddReceiver(receiver, true))
      ensures outcome == Ok ==> receiver in receivers && receivers[receiver]
    {
      outcome := AddReceiver(receiver, true);
    }

    method SetWriteable(flag: bool)
      modifies this
      ensures State() == Step(old(State()), Call.SetWriteable(flag)).1
      ensures writeable == flag && receivers == old(receivers)
    {
      writeable := flag;
    }

    /**
     * Passes `e` (a write or a flush) on to every registered sink, visiting
     * them in no particular order; fails while not writeable.
     */
    method Forward(e: Event) returns (outcome: Outcome)
      requires !e.Close?
      modifies receivers.Keys
      ensures outcome == Step(State(), Stream(e)).0
      ensures forall s :: s in receivers ==> s.log == old(s.log) + Delivered(State(), Stream(e), s)
    {
      if writeable {
        var pending := receivers.Keys;
        while pending != {}
          invariant pending <= receivers.Keys
          invariant forall s :: s in receivers && s !in pending ==> s.log == old(s.log) + [e]
          invariant forall s :: s in pending ==> s.log == old(s.log)
          decreases pending
        {
          var os :| os in pending;
          os.Receive(e);
          pending := pending - {os};
        }
        outcome := Ok;
      } else {
        outcome := IllegalState;
      }
    }

    /** write(int): the byte is handed on unchanged; truncation is the sinks' business. */
    method Write(b: int32) returns (outcome: Outcome)
      modifies receivers.Keys
      ensures outcome == Step(State(), Stream(Event.Write(b))).0
      ensures forall s :: s in receivers ==>
        s.log == old(s.log) + Delivered(State(), Stream(Event.Write(b)), s)
    {
      outcome := Forward(Event.Write(b));
    }

    /** write(byte[]) */
    method WriteArray(data: seq<int8>) returns (outcome: Outcome)
      modifies receivers.Keys
      ensures outcome == Step(State(), Stream(Event.WriteArray(data))).0
      ensures forall s :: s in receivers ==>
        s.log == old(s.log) + Delivered(State(), Stream(Event.WriteArray(data)), s)
    {
      outcome := Forward(Event.WriteArray(data));
    }

    /** write(byte[], int, int): off and len are checked by the sinks, not here. */
    method WriteRange(data: seq<int8>, off: int32, len: int32) returns (outcome: Outcome)
      modifies receivers.Keys
      ensures outcome == Step(State(), Stream(Event.WriteRange(data, off, len))).0
      ensures forall s :: s in receivers ==>
        s.log == old(s.log) + Delivered(State(), Stream(Event.WriteRange(data, off, len)), s)
    {
      outcome := Forward(Event.WriteRange(data, off, len));
    }

    method Flush() returns (outcome: Outcome)
      modifies receivers.Keys
      ensures outcome == Step(State(), Stream(Event.Flush)).0
      ensures forall s :: s in receivers ==>
        s.log == old(s.log) + Delivered(State(), Stream(Event.Flush), s)
    {
      outcome := Forward(Event.Flush);
    }

    /**
     * Closes every registered sink whose policy is true, visiting the
     * registry in no particular order, then clears the writeable flag;
     * fails while not writeable.
     */
    method Close() returns (outcome: Outcome)
      modifies this, receivers.Keys
      ensures (outcome, State()) == Step(old(State()), Stream(Event.Close))
      ensures forall s :: s in old(receivers) ==>
        s.log == old(s.log) + Delivered(old(State()), Stream(Event.Close), s)
    {
      if writeable {
        var pending := receivers.Keys;
        while pending != {}
          invariant writeable && receivers == old(receivers)
          invariant pending <= receivers.Keys
          invariant forall s :: s in receivers && s !in pending ==>
            s.log == old(s.log) + (if receivers[s] then [Event.Close] else [])
          invariant forall s :: s in pending ==> s.log == old(s.log)
          decreases pending
        {
          var os :| os in pending;
          if receivers[os] {
            os.Receive(Event.Close);
          }
          pending := pending - {os};
        }
        writeable := false;
        outcome := Ok;
      } else {
        outcome := IllegalState;
      }
    }
  }
}
