/**
 * The cancellation signal of src/http/AbortionSignal.ts: an `EventTarget`
 * with a private `_aborted` flag behind a public getter and setter.
 * The listener registry it inherits is modelled as the ordered list of
 * registered (event type, callback) pairs; a listener runs when its event
 * is dispatched, and what it then does is up to the object that registered it.
 */
module AbortionSignals {

  /** A registered listener: the event type and the identity of the callback. */
  datatype Listener = Listener(eventType: string, callback: nat)

  /** The listeners of `ls` registered for `eventType`, in registration order. */
  function ListenersFor(ls: seq<Listener>, eventType: string): seq<Listener>
    decreases |ls|
  {
    if ls == [] then []
    else
      var last := ls[|ls| - 1];
      ListenersFor(ls[..|ls| - 1], eventType) + (if last.eventType == eventType then [last] else [])
  }

  /** No listener occurs twice. */
  predicate Distinct(ls: seq<Listener>) {
    forall i, j :: 0 <= i < j < |ls| ==> ls[i] != ls[j]
  }

  /** `ls` without `l`. */
  function Without(ls: seq<Listener>, l: Listener): (r: seq<Listener>)
    ensures forall x :: x in r <==> x in ls && x != l
    ensures Distinct(ls) ==> Distinct(r)
    decreases |ls|
  {
    if ls == [] then []
    else if ls[0] == l then Without(ls[1..], l)
    else
      var rest := Without(ls[1..], l);
      assert Distinct(ls) ==> ls[0] !in ls[1..];
      [ls[0]] + rest
  }

  /**
   * Dispatch reaches the listeners of the dispatched type and no other,
   * each one once.
   */
  lemma {:induction false} ListenersForMembers(ls: seq<Listener>, eventType: string)
    ensures forall l :: l in ListenersFor(ls, eventType) <==> l in ls && l.eventType == eventType
    ensures Distinct(ls) ==> Distinct(ListenersFor(ls, eventType))
    decreases |ls|
  {
    if ls != [] {
      var init := ls[..|ls| - 1];
      var last := ls[|ls| - 1];
      ListenersForMembers(init, eventType);
      assert ls == init + [last];
      if Distinct(ls) {
        DistinctSnoc(init, last);
        if last.eventType == eventType {
          DistinctSnoc(ListenersFor(init, eventType), last);
        }
      }
    }
  }

  /** Appending a listener keeps the list distinct exactly when it is new. */
  lemma DistinctSnoc(ls: seq<Listener>, l: Listener)
    ensures Distinct(ls + [l]) <==> Distinct(ls) && l !in ls
  {
    var r := ls + [l];
    if Distinct(r) {
      forall i, j | 0 <= i < j < |ls| ensures ls[i] != ls[j] {
        assert r[i] == ls[i] && r[j] == ls[j];
      }
      forall k | 0 <= k < |ls| ensures ls[k] != l {
        assert r[k] == ls[k] && r[|ls|] == l;
      }
    }
  }

  /**
   * Registration order is notification order: the listeners registered
   * first are notified first.
   */
  lemma {:induction false} ListenersForAppend(a: seq<Listener>, b: seq<Listener>, eventType: string)
    ensures ListenersFor(a + b, eventType) == ListenersFor(a, eventType) + ListenersFor(b, eventType)
    decreases |b|
  {
    if b == [] {
      assert a + b == a;
    } else {
      var init := b[..|b| - 1];
      var last := b[|b| - 1];
      ListenersForAppend(a, init, eventType);
      assert (a + b)[..|a + b| - 1] == a + init;
      assert (a + b)[|a + b| - 1] == last;
    }
  }

  class AbortionSignal {
    /** The private `_aborted` field. */
    var aborted: bool
    /** The listener registry inherited from `EventTarget`. */
    var listeners: seq<Listener>

    /** `addEventListener` never registers the same pair twice. */
    ghost predicate Valid()
      reads this
    {
      Distinct(listeners)
    }

    /** A new signal is not aborted and has no listeners. */
    constructor ()
      ensures Valid()
      ensures !aborted && listeners == []
    {
      aborted := false;
      listeners := [];
    }

    /** The `aborted` getter. */
    function Aborted(): bool
      reads this
    {
      aborted
    }

    /** The `aborted` setter: any value, `false` after `true` included. */
    method SetAborted(value: bool)
      modifies this
      ensures aborted == value
      ensures listeners == old(listeners)
    {
      aborted := value;
    }

    /** `addEventListener(type, callback)`: appended unless already registered. */
    method AddEventListener(l: Listener)
      requires Valid()
      modifies this
      ensures Valid()
      ensures listeners == if l in old(listeners) then old(listeners) else old(listeners) + [l]
      ensures aborted == old(aborted)
    {
      if l !in listeners {
        listeners := listeners + [l];
      }
    }

    /** `removeEventListener(type, callback)` */
    method RemoveEventListener(l: Listener)
      requires Valid()
      modifies this
      ensures Valid()
      ensures listeners == Without(old(listeners), l)
      ensures aborted == old(aborted)
    {
      listeners := Without(listeners, l);
    }

    /**
     * `dispatchEvent(new CustomEvent(eventType))`: runs every listener of that
     * type, in registration order, and returns the ones it ran. The flag
     * and the registry are left as they are.
     */
    method DispatchEvent(eventType: string) returns (notified: seq<Listener>)
      ensures notified == ListenersFor(listeners, eventType)
    {
      notified := [];
      for i := 0 to |listeners|
        invariant notified == ListenersFor(listeners[..i], eventType)
      {
        assert listeners[..i + 1][..i] == listeners[..i];
        if listeners[i].eventType == eventType {
          notified := notified + [listeners[i]];
        }
      }
      assert listeners[..|listeners|] == listeners;
    }
  }

  /**
   * The getter reads back the last value set, and nothing stops a signal
   * from being set aborted and then not aborted again; listeners added in
   * between do not touch the flag.
   */
  method SetterIsNotMonotonic(l: Listener) returns (initially: bool, afterSet: bool, afterAdd: bool, afterReset: bool)
    ensures !initially && afterSet && afterAdd && !afterReset
  {
    var signal := new AbortionSignal();
    initially := signal.Aborted();
    signal.SetAborted(true);
    afterSet := signal.Aborted();
    signal.AddEventListener(l);
    afterAdd := signal.Aborted();
    signal.SetAborted(false);
    afterReset := signal.Aborted();
  }
}
