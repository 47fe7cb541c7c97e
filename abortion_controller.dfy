/**
 * The cancellation controller of src/http/AbortionController.ts: it owns
 * one signal, hands it out through a getter and trips it with `abort()`,
 * which first dispatches `'aborted'` and only then sets the flag.
 */
module AbortionControllers {
  import opened AbortionSignals

  /** The event type `abort()` dispatches. */
  const ABORTED_EVENT: string := "aborted"

  class AbortionController {
    /** The private readonly `_signal`, which the `signal` getter returns. */
    const signal: AbortionSignal

    /** Creates the one signal this controller will ever hand out. */
    constructor ()
      ensures fresh(signal)
      ensures signal.Valid()
      ensures !signal.aborted && signal.listeners == []
    {
      signal := new AbortionSignal();
    }

    /**
     * `abort()`: notifies the `'aborted'` listeners, then sets the flag.
     * `flagSeen` is what a listener reads from `signal.aborted` while it is
     * being notified. Nothing guards a second call.
     */
    method Abort() returns (notified: seq<Listener>, flagSeen: bool)
      requires signal.Valid()
      modifies signal
      ensures signal.Valid()
      ensures notified == ListenersFor(old(signal.listeners), ABORTED_EVENT)
      ensures flagSeen == old(signal.aborted)
      ensures signal.aborted
      ensures signal.listeners == old(signal.listeners)
    {
      notified := signal.DispatchEvent(ABORTED_EVENT);
      flagSeen := signal.Aborted();
      signal.SetAborted(true);
    }
  }

  /**
   * Two `abort()` calls on a controller with one `'aborted'` listener: the
   * listener is notified both times; during the first notification the
   * flag still reads false, during the second it already reads true.
   */
  method AbortTwice(l: Listener) returns (first: seq<Listener>, second: seq<Listener>, seenFirst: bool, seenSecond: bool)
    requires l.eventType == ABORTED_EVENT
    ensures first == [l] && second == [l]
    ensures !seenFirst && seenSecond
  {
    var controller := new AbortionController();
    controller.signal.AddEventListener(l);
    assert controller.signal.listeners == [l];
    assert ListenersFor([l], ABORTED_EVENT) == [l] by {
      assert [l][..0] == [];
    }
    first, seenFirst := controller.Abort();
    second, seenSecond := controller.Abort();
  }

  /**
   * Listeners of other event types are not notified by `abort()`, and
   * `abort()` leaves the registry as it found it.
   */
  method AbortSkipsOtherEvents(l: Listener, other: Listener) returns (notified: seq<Listener>, remaining: seq<Listener>)
    requires l.eventType == ABORTED_EVENT && other.eventType != ABORTED_EVENT
    ensures notified == [l]
    ensures remaining == [other, l]
  {
    var controller := new AbortionController();
    controller.signal.AddEventListener(other);
    controller.signal.AddEventListener(l);
    assert controller.signal.listeners == [other, l];
    assert ListenersFor([other, l], ABORTED_EVENT) == [l] by {
      assert [other, l][..1] == [other];
      assert [other][..0] == [];
      assert ListenersFor([other], ABORTED_EVENT) == [];
    }
    var seen;
    notified, seen := controller.Abort();
    remaining := controller.signal.listeners;
  }
}
