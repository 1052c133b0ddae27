/**
 * The receiving end of a distributor: any output stream. A sink is known
 * only by its identity (Dafny object identity, as in a map keyed by a Java
 * object that does not override equals) and by the record of the calls it
 * has received.
 */
module Sinks {

  /** Java's `int`, the argument of `write(int)`. */
  newtype int32 = x: int | -0x8000_0000 <= x < 0x8000_0000

  /** Java's `byte`, the element type of the arrays passed to `write`. */
  newtype int8 = x: int | -0x80 <= x < 0x80

  /** One call of the output-stream interface, as a sink observes it. */
  datatype Event =
    | Write(b: int32)                                  // write(int)
    | WriteArray(data: seq<int8>)                      // write(byte[])
    | WriteRange(data: seq<int8>, off: int32, len: int32)  // write(byte[], int, int)
    | Flush                                            // flush()
    | Close                                            // close()

  type Log = seq<Event>

  /** The number of times `e` occurs in `log`. */
  function Count(log: Log, e: Event): (n: nat)
    ensures n <= |log|
    ensures n == 0 <==> e !in log
  {
    if log == [] then 0 else (if log[0] == e then 1 else 0) + Count(log[1..], e)
  }

  lemma {:induction false} CountAppend(a: Log, b: Log, e: Event)
    ensures Count(a + b, e) == Count(a, e) + Count(b, e)
  {
    if a == [] {
      assert a + b == b;
    } else {
      assert (a + b)[1..] == a[1..] + b;
      CountAppend(a[1..], b, e);
    }
  }

  /**
   * A sink: an output stream whose behaviour is not part of this model.
   * It records every call it receives, in the order it receives them.
   */
  class Sink {
    var log: Log

    constructor ()
      ensures log == []
    {
      log := [];
    }

    method Receive(e: Event)
      modifies this
      ensures log == old(log) + [e]
    {
      log := log + [e];
    }
  }
}
