/**
 * The game-wide publish/subscribe bus: a map from event names to
 * insertion-ordered sets of callbacks.
 */
module Events {
  import opened JsValues

  /** A registered callback, by identity. */
  type Callback = nat

  /** One call `callback(data)` made by `emit`. */
  datatype Delivery = Delivery(callback: Callback, event: string, data: Value)

  /** The calls `emit(event, data)` makes: one per listener of that event, in registration order. */
  function Deliveries(listeners: map<string, seq<Callback>>, event: string, data: Value): (r: seq<Delivery>)
    ensures event !in listeners ==> r == []
    ensures event in listeners ==> |r| == |listeners[event]|
    ensures event in listeners ==> forall i :: 0 <= i < |r| ==> r[i] == Delivery(listeners[event][i], event, data)
  {
    if event !in listeners then []
    else seq(|listeners[event]|, i requires 0 <= i < |listeners[event]| => Delivery(listeners[event][i], event, data))
  }

  /** A callback is called by `emit` exactly when it is registered for that event. */
  lemma DeliveredIffListening(listeners: map<string, seq<Callback>>, event: string, data: Value, cb: Callback)
    ensures Delivery(cb, event, data) in Deliveries(listeners, event, data) <==> event in listeners && cb in listeners[event]
  {
    var r := Deliveries(listeners, event, data);
    if event in listeners && cb in listeners[event] {
      var i :| 0 <= i < |listeners[event]| && listeners[event][i] == cb;
      assert r[i] == Delivery(cb, event, data);
    }
  }

  /** With no duplicate registrations, no callback is called twice by one `emit`. */
  lemma DeliveredOnce(listeners: map<string, seq<Callback>>, event: string, data: Value)
    requires event in listeners && NoDuplicates(listeners[event])
    ensures NoDuplicates(Deliveries(listeners, event, data))
  {
  }

  class EventBus {
    var listeners: map<string, seq<Callback>>
    /** Every call made to a listener so far, oldest first. */
    var deliveries: seq<Delivery>

    ghost predicate Valid()
      reads this
    {
      forall e :: e in listeners ==> NoDuplicates(listeners[e])
    }

    constructor ()
      ensures Valid() && listeners == map[] && deliveries == []
    {
      listeners := map[];
      deliveries := [];
    }

    /** `on`: creates the event's set on first use, then adds the callback to it. */
    method On(event: string, cb: Callback)
      requires Valid()
      modifies this`listeners
      ensures Valid()
      ensures listeners == old(listeners)[event := SetAdd(if event in old(listeners) then old(listeners)[event] else [], cb)]
      ensures cb in listeners[event]
    {
      if event !in listeners {
        listeners := listeners[event := []];
      }
      listeners := listeners[event := SetAdd(listeners[event], cb)];
    }

    /** `off`: removes the callback from the event's set; the (possibly empty) set stays. */
    method Off(event: string, cb: Callback)
      requires Valid()
      modifies this`listeners
      ensures Valid()
      ensures event in old(listeners) ==> listeners == old(listeners)[event := Remove(old(listeners)[event], cb)]
      ensures event !in old(listeners) ==> listeners == old(listeners)
      ensures event in listeners ==> cb !in listeners[event]
    {
      if event in listeners {
        listeners := listeners[event := Remove(listeners[event], cb)];
      }
    }

    /**
     * `emit`: calls each listener of the event with the data. A listener that
     * throws is caught and the remaining listeners are still called.
     */
    method Emit(event: string, data: Value)
      requires Valid()
      modifies this`deliveries
      ensures Valid()
      ensures deliveries == old(deliveries) + Deliveries(listeners, event, data)
    {
      if event in listeners {
        var subs := listeners[event];
        var i := 0;
        while i < |subs|
          invariant 0 <= i <= |subs|
          invariant deliveries == old(deliveries) + Deliveries(listeners, event, data)[..i]
        {
          assert Deliveries(listeners, event, data)[..i + 1] == Deliveries(listeners, event, data)[..i] + [Delivery(subs[i], event, data)];
          deliveries := deliveries + [Delivery(subs[i], event, data)];
          i := i + 1;
        }
        assert Deliveries(listeners, event, data)[..i] == Deliveries(listeners, event, data);
      }
    }
  }
}
