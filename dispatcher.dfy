/** The listener fan-out of gateway/src/core/dispatcher.rs (and its older copy
    gateway/src/dispatcher.rs, which has the same code). The set of listener kinds is closed
    here: the console logger and the two fixtures of the dispatcher's own test. */
module Dispatch {
  import opened Wrappers
  import opened StateChanges
  import ConsoleLogging

  /** The call counter the test's `OkListener` shares with the test (`Arc<Mutex<u32>>`). */
  class CallCounter {
    var calls: nat

    constructor ()
      ensures calls == 0
    {
      calls := 0;
    }
  }

  datatype Listener =
    | ConsoleLogger
    | OkListener(counter: CallCounter)
    | FailingListener

  /** What `on_event` returns for each kind of listener. */
  function Response(l: Listener, change: StateChange): (r: Result<Unit, ListenerError>)
    ensures r.Err? <==> l.FailingListener? || (l.ConsoleLogger? && change == DeviceCreated(0))
  {
    match l
    case ConsoleLogger => ConsoleLogging.OnEvent(change)
    case OkListener(_) => Ok(Unit)
    case FailingListener => Err(General("fail"))
  }

  /** `StateListener::on_event`: the `OkListener` bumps its counter, the others change
      nothing. */
  method OnEvent(l: Listener, change: StateChange) returns (r: Result<Unit, ListenerError>)
    modifies if l.OkListener? then {l.counter} else {}
    ensures r == Response(l, change)
    ensures l.OkListener? ==> l.counter.calls == old(l.counter.calls) + 1
  {
    match l {
      case ConsoleLogger =>
        r := ConsoleLogging.OnEvent(change);
      case OkListener(counter) =>
        counter.calls := counter.calls + 1;
        r := Ok(Unit);
      case FailingListener =>
        r := Err(General("fail"));
    }
  }

  /** One call of `on_event` as the dispatcher made it: which listener (by registration
      position), with which change, and what came back. */
  datatype Delivery = Delivery(listener: nat, change: StateChange, outcome: Result<Unit, ListenerError>)

  /** The calls a dispatch makes, in the order it makes them. */
  ghost function Deliveries(ls: seq<Listener>, change: StateChange): seq<Delivery>
    decreases |ls|
  {
    if ls == [] then []
    else Deliveries(ls[..|ls| - 1], change) +
         [Delivery(|ls| - 1, change, Response(ls[|ls| - 1], change))]
  }

  /** Every listener is called exactly once, in registration order, with the same change,
      whatever the earlier listeners returned. */
  lemma {:induction false} DeliveriesInOrder(ls: seq<Listener>, change: StateChange)
    ensures |Deliveries(ls, change)| == |ls|
    ensures forall i :: 0 <= i < |ls| ==>
      Deliveries(ls, change)[i] == Delivery(i, change, Response(ls[i], change))
    decreases |ls|
  {
    if ls != [] {
      var init := ls[..|ls| - 1];
      DeliveriesInOrder(init, change);
      forall i | 0 <= i < |ls| - 1 ensures ls[i] == init[i] { }
    }
  }

  /** The counters of the `OkListener`s in a listener list. */
  function Counters(ls: seq<Listener>): set<CallCounter> {
    set i | 0 <= i < |ls| && ls[i].OkListener? :: ls[i].counter
  }

  /** How many registered listeners report to counter `c`. */
  function Occurrences(ls: seq<Listener>, c: CallCounter): nat
    decreases |ls|
  {
    if ls == [] then 0
    else Occurrences(ls[..|ls| - 1], c) + (if ls[|ls| - 1] == OkListener(c) then 1 else 0)
  }

  class Dispatcher {
    /** Fixed at construction: there is no way to register a listener later. */
    const listeners: seq<Listener>
    /** The calls made so far (not part of the gateway's state). */
    ghost var delivered: seq<Delivery>

    /** `Dispatcher::new`. */
    constructor (listeners: seq<Listener>)
      ensures this.listeners == listeners && delivered == []
    {
      this.listeners := listeners;
      delivered := [];
    }

    /** `Dispatcher::dispatch`: calls every listener in order and swallows (logs) each error;
        it returns nothing, so no listener error reaches the caller. */
    method Dispatch(change: StateChange)
      modifies this, Counters(listeners)
      ensures delivered == old(delivered) + Deliveries(listeners, change)
      ensures forall c :: c in Counters(listeners) ==>
        c.calls == old(c.calls) + Occurrences(listeners, c)
    {
      var i := 0;
      while i < |listeners|
        invariant 0 <= i <= |listeners|
        invariant delivered == old(delivered) + Deliveries(listeners[..i], change)
        invariant forall c :: c in Counters(listeners) ==>
          c.calls == old(c.calls) + Occurrences(listeners[..i], c)
      {
        var l := listeners[i];
        assert listeners[..i + 1][..i] == listeners[..i];
        if l.OkListener? {
          assert l.counter in Counters(listeners);
        }
        var outcome := OnEvent(l, change);
        // an Err is only logged: the loop goes on with the next listener
        delivered := delivered + [Delivery(i, change, outcome)];
        i := i + 1;
      }
      assert listeners[..i] == listeners;
    }
  }

  /** The dispatcher's own test: with `[FailingListener, OkListener]`, dispatching
      `DeviceCreated{id: 1}` leaves the OkListener's counter at 1. */
  method ContinuesAfterListenerFailure() returns (calls: nat)
    ensures calls == 1
  {
    var counter := new CallCounter();
    var listeners := [FailingListener, OkListener(counter)];
    var dispatcher := new Dispatcher(listeners);
    assert listeners[1].OkListener? && listeners[1].counter == counter;
    assert counter in Counters(listeners);
    assert listeners[..1] == [FailingListener];
    assert [FailingListener][..0] == [];
    assert Occurrences(listeners, counter) == 1;
    dispatcher.Dispatch(DeviceCreated(1));
    calls := counter.calls;
  }
}
