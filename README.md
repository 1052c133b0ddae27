# Distributing output stream — a Dafny model

`DistributingOutputStream` is a Java `OutputStream` that fans every write and
flush out to a set of receiver streams. It lives in two phases, told apart by
one boolean flag, `writeable`, which starts out false:

- while `writeable` is false, receivers may be added, each with a
  `closeWithDistributor` policy (a receiver added with `false` is
  *survivable*: the distributor never closes it);
- `setWriteable(true)` seals the registry; from then on `write(int)`,
  `write(byte[])`, `write(byte[], int, int)` and `flush()` are passed on to
  every receiver;
- `close()` closes exactly the receivers whose policy is `true` and clears the
  flag, so that a second `close()`, and any later write or flush, throws
  `IllegalStateException`, provided no sink threw during the close and the
  flag is not set back to true.

The model has four modules.

- `Sinks` (`sinks.dfy`): a receiver is a `Sink` object, known by its identity
  and by the record (`log`) of the calls it has received. The registry is
  keyed by identity, exactly as a `HashMap` keyed by output streams that do
  not override `equals`.
- `Lifecycle` (`lifecycle.dfy`): the distributor as a state machine on values.
  `Step` gives the outcome (`Ok` or `IllegalState`, the thrown
  `IllegalStateException`) and the new configuration of every call;
  `Delivered` says what each sink receives from it. `Run` and `Received` fold
  them over a trace of calls, and the lemmas prove the lifecycle guarantees
  for every trace.
- `Distributor` (`distributor.dfy`): the class itself, with the mutable
  `writeable` flag and the `receivers` map, and methods that loop over the
  registry as the Java code does. Each method is proved to agree with `Step`
  and `Delivered`.
- `Scenarios` (`scenarios.dfy`): the unit tests of the repository replayed
  against the class.

The registry is iterated through `keySet()` of a `HashMap`, whose order is
unspecified. The loops therefore pick the next receiver with `:|`, and no
contract promises an order among sinks. Per sink, the order of the calls is
kept: `SealedSinkSeesEveryEvent` shows it receives them in call order.

Two consequences of the Java code that the model keeps as written:

- Receivers are visited in `HashMap` order, which is unspecified, not in
  registration order.
- `close()` ends with the flag false, the same value that allows
  registration, so `addReceiver` succeeds straight after `close()`
  (`RegistrationAfterClose`). Nothing refuses `setWriteable(true)` after
  `close()` either: writes then flow again, and a second `close()` closes
  every sink with policy true again (`ReopenClosesAgain`).

## Model

| member | source | states |
|---|---|---|
| `Lifecycle.Step` | src/main/java/hu/skawa/distributingoutputstream/DistributingOutputStream.java:23-158 | a call succeeds exactly when the lifecycle guard allows it (registration only while not writeable, write/flush/close only while writeable, setWriteable always); a failed call changes nothing; a successful registration maps the receiver to its policy, overwriting an earlier one, and keeps every other entry and the flag; only registration changes the registry; setWriteable sets the flag; a successful close clears it and a write or flush keeps it |
| `Lifecycle.Delivered` | src/main/java/hu/skawa/distributingoutputstream/DistributingOutputStream.java:69-153 | a call delivers at most its own event, and it delivers it to a sink exactly when the call succeeds, is a stream call, the sink is registered, and, for close, the sink's policy is true |
| `Lifecycle.Run` | src/main/java/hu/skawa/distributingoutputstream/DistributingOutputStream.java:23-158 | a trace of calls yields one outcome per call |
| `Lifecycle.Received` | src/main/java/hu/skawa/distributingoutputstream/DistributingOutputStream.java:69-153 | over a trace, a sink receives at most one event per call |
| `Lifecycle.UnwritableStaysSilent` | src/main/java/hu/skawa/distributingoutputstream/DistributingOutputStream.java:69-157 | while not writeable and with no `setWriteable(true)` in the trace, every write, flush and close throws, no sink receives anything, and the flag stays false |
| `Lifecycle.CloseIsFinal` | src/main/java/hu/skawa/distributingoutputstream/DistributingOutputStream.java:147-157 | assuming no sink throws: after a successful close, and unless the flag is set back to true, a second close and every write and flush throw and no sink receives anything more |
| `Lifecycle.ClosedAtMostOnce` | src/main/java/hu/skawa/distributingoutputstream/DistributingOutputStream.java:147-157 | assuming no sink throws: over any trace without `setWriteable(true)`, the distributor closes each sink at most once |
| `Lifecycle.SurvivorNeverClosed` | src/main/java/hu/skawa/distributingoutputstream/DistributingOutputStream.java:149-153 | a sink registered with policy false (or not at all) and never registered with true during the trace is never closed by the distributor |
| `Lifecycle.SealedRegistryFrozen` | src/main/java/hu/skawa/distributingoutputstream/DistributingOutputStream.java:23-28 | while writeable and until the flag is cleared, every registration throws and the configuration does not change |
| `Lifecycle.SealedSinkSeesEveryEvent` | src/main/java/hu/skawa/distributingoutputstream/DistributingOutputStream.java:68-134 | while writeable and until the flag is cleared, each registered sink receives exactly the trace's writes and flushes, each once, in call order |
| `Lifecycle.UnregisteredSinkUntouched` | src/main/java/hu/skawa/distributingoutputstream/DistributingOutputStream.java:70-72 | a sink that is not registered, and that the trace does not register, receives nothing |
| `Lifecycle.RegistrationAfterClose` | src/main/java/hu/skawa/distributingoutputstream/DistributingOutputStream.java:23-25 | right after a successful close, registering a receiver succeeds, because close leaves the flag false (line 154) |
| `Lifecycle.ReopenClosesAgain` | src/main/java/hu/skawa/distributingoutputstream/DistributingOutputStream.java:48-50 | after close, `setWriteable(true)` lets a write through again and a second close closes a policy-true sink a second time |
| `Distributor.DistributingOutputStream.constructor` | src/main/java/hu/skawa/distributingoutputstream/DistributingOutputStream.java:164-166 | a new distributor is not writeable and has no receivers |
| `Distributor.DistributingOutputStream.AddReceiver` | src/main/java/hu/skawa/distributingoutputstream/DistributingOutputStream.java:23-29 | outcome and new state are those of `Step` for a registration; no sink is touched |
| `Distributor.DistributingOutputStream.AddClosingReceiver` | src/main/java/hu/skawa/distributingoutputstream/DistributingOutputStream.java:39-41 | behaves as registration with policy true; on success the receiver is mapped to true |
| `Distributor.DistributingOutputStream.SetWriteable` | src/main/java/hu/skawa/distributingoutputstream/DistributingOutputStream.java:48-50 | always succeeds, sets the flag, leaves the registry alone |
| `Distributor.DistributingOutputStream.Forward` | src/main/java/hu/skawa/distributingoutputstream/DistributingOutputStream.java:69-75 | the shared loop of the writes and flush: fails while not writeable; otherwise appends the event exactly once to every registered sink's record; only registered sinks and nothing of the distributor may change |
| `Distributor.DistributingOutputStream.Write` | src/main/java/hu/skawa/distributingoutputstream/DistributingOutputStream.java:67-76 | outcome is that of `Step`; every registered sink's record grows by what `Delivered` gives: one `write(b)` when writeable, nothing otherwise |
| `Distributor.DistributingOutputStream.WriteArray` | src/main/java/hu/skawa/distributingoutputstream/DistributingOutputStream.java:85-94 | as `Write`, for `write(byte[])` |
| `Distributor.DistributingOutputStream.WriteRange` | src/main/java/hu/skawa/distributingoutputstream/DistributingOutputStream.java:107-116 | as `Write`, for `write(byte[], int, int)`, passing offset and length on unchanged |
| `Distributor.DistributingOutputStream.Flush` | src/main/java/hu/skawa/distributingoutputstream/DistributingOutputStream.java:125-134 | as `Write`, for `flush()` |
| `Distributor.DistributingOutputStream.Close` | src/main/java/hu/skawa/distributingoutputstream/DistributingOutputStream.java:146-158 | outcome and new state are those of `Step` for close (fails while not writeable, otherwise clears the flag and keeps the registry); each registered sink receives one close exactly when its policy is true |
| `Scenarios.AddAfterWriteable` | src/test/java/hu/skawa/distributingoutputstream/DistributingOutputStreamTest.java:15-22 | registering after `setWriteable(true)` throws and does not register |
| `Scenarios.AddBeforeWriteable` | src/test/java/hu/skawa/distributingoutputstream/DistributingOutputStreamTest.java:24-42 | explicit registration with true and default registration both succeed and map the sink to true |
| `Scenarios.Distribution` | src/test/java/hu/skawa/distributingoutputstream/DistributingOutputStreamTest.java:44-64 | one write reaches each of two sinks exactly once |
| `Scenarios.DistributionBeforeWriteable` | src/test/java/hu/skawa/distributingoutputstream/DistributingOutputStreamTest.java:66-87 | a write before `setWriteable(true)` throws and reaches no sink |
| `Scenarios.SurvivingStream` | src/test/java/hu/skawa/distributingoutputstream/DistributingOutputStreamTest.java:89-114 | the closing sink records write then close; the survivable one records the distributed write and its owner's later write, and no close; a second close throws |
| `Scenarios.BothClosed` | src/test/java/hu/skawa/distributingoutputstream/DistributingOutputStreamTest.java:116-139 | both sinks record write then close; a write after close throws |

## Left out

- `IOException` from a sink: a sink here always accepts a call. The Java loops stop at the first sink that throws. Sinks visited before it keep what they received, and the rest receive nothing. The model does not capture that partial fan-out. A throwing `close()` also never reaches `writeable = false` (line 154), so the flag stays true: later writes still fan out, and a retried `close()` closes again the sinks it already reached. `CloseIsFinal` and `ClosedAtMostOnce` hold only when no sink throws.
- Distributor.DistributingOutputStream.AddReceiver: a `Sink` cannot be null, so `addReceiver(null, p)` is not modelled. In Java it succeeds, since `HashMap` accepts a null key (line 25). Every later `write` and `flush` then throws `NullPointerException` partway through its loop (lines 71, 89, 111, 129). With policy true, `close()` throws it too (line 151) and leaves `writeable` true.
- The `synchronized` modifiers: the model is single-threaded.
- What a sink does with a call is not part of this model. This covers truncating `write(int)` to its low 8 bits, checking `off` and `len`, throwing on a `null` array, and refusing writes once closed (the `IOException` the test at DistributingOutputStreamTest.java:136 expects from a closed sink). A sink only records the call.
- A `byte[]` argument is passed as its contents (`seq<int8>`), not as a shared mutable array.
- The order in which receivers are visited: `HashMap` iteration order is unspecified, and the model picks an arbitrary unvisited receiver at each step.
