/**
 * The unit-test scenarios of the distributor, replayed against the model:
 * each method drives a fresh distributor and states what its sinks
 * recorded and what each call returned.
 */
module Scenarios {
  import opened Sinks
  import opened Lifecycle
  import opened Distributor

  /** Registering after the distributor became writeable throws. */
  method AddAfterWriteable() returns (outcome: Outcome, registered: bool)
    ensures outcome == IllegalState && !registered
  {
    var sink := new Sink();
    var dst := new DistributingOutputStream();
    dst.SetWriteable(true);
    outcome := dst.AddReceiver(sink, true);
    registered := sink in dst.receivers;
  }

  /** Explicit registration with true and the one-argument default registration both map the sink to true. */
  method AddBeforeWriteable() returns (explicit: Outcome, implicit: Outcome, policies: seq<bool>)
    ensures explicit == Ok && implicit == Ok
    ensures policies == [true, true]
  {
    var a := new Sink();
    var b := new Sink();
    var dst := new DistributingOutputStream();
    explicit := dst.AddReceiver(a, true);
    implicit := dst.AddClosingReceiver(b);
    policies := [dst.receivers[a], dst.receivers[b]];
  }

  /** One write reaches each of two registered sinks exactly once. */
  method Distribution() returns (baos: Sink, fos: Sink, outcome: Outcome)
    ensures outcome == Ok
    ensures baos.log == [Event.Write(128)] && fos.log == [Event.Write(128)]
  {
    fos := new Sink();
    baos := new Sink();
    var dst := new DistributingOutputStream();
    var o := dst.AddReceiver(baos, true);
    o := dst.AddReceiver(fos, true);
    dst.SetWriteable(true);
    outcome := dst.Write(128);
  }

  /** Writing before the distributor is writeable throws and reaches no sink. */
  method DistributionBeforeWriteable() returns (baos: Sink, fos: Sink, outcome: Outcome)
    ensures outcome == IllegalState
    ensures baos.log == [] && fos.log == []
  {
    fos := new Sink();
    baos := new Sink();
    var dst := new DistributingOutputStream();
    var o := dst.AddReceiver(baos, true);
    o := dst.AddReceiver(fos, true);
    outcome := dst.Write(128);
  }

  /**
   * A survivable sink is written to but not closed, and its owner can go on
   * writing to it after the distributor is closed; closing again fails.
   */
  method SurvivingStream() returns (baos: Sink, fos: Sink, secondClose: Outcome)
    ensures baos.log == [Event.Write(128), Event.Close]
    ensures fos.log == [Event.Write(128), Event.Write(128)]
    ensures secondClose == IllegalState
  {
    fos := new Sink();
    baos := new Sink();
    var dst := new DistributingOutputStream();
    var o := dst.AddReceiver(baos, true);
    o := dst.AddReceiver(fos, false);
    dst.SetWriteable(true);
    o := dst.Write(128);
    o := dst.Close();
    fos.Receive(Event.Write(128));
    secondClose := dst.Close();
  }

  /** Both sinks registered to close with the distributor are closed by it. */
  method BothClosed() returns (baos: Sink, fos: Sink, lateWrite: Outcome)
    ensures baos.log == [Event.Write(128), Event.Close]
    ensures fos.log == [Event.Write(128), Event.Close]
    ensures lateWrite == IllegalState
  {
    baos := new Sink();
    fos := new Sink();
    var dst := new DistributingOutputStream();
    var o := dst.AddReceiver(baos, true);
    o := dst.AddClosingReceiver(fos);
    dst.SetWriteable(true);
    o := dst.Write(128);
    o := dst.Close();
    lateWrite := dst.Write(128);
  }
}
