/** The listener registry (src/DashPlayer/EventManager.ts). Listeners are
    identified by ids; invoking one is recorded as its id. */
module Events {

  datatype EventType = BufferReachedEnd

  type ListenerId = nat

  /** `filter((l) => l !== listener)`: every other listener, in order. */
  function Without(xs: seq<ListenerId>, listener: ListenerId): (r: seq<ListenerId>)
    ensures listener !in r
    ensures forall y :: y in r <==> y in xs && y != listener
    ensures |r| <= |xs|
  {
    if xs == [] then []
    else (if xs[0] == listener then [] else [xs[0]]) + Without(xs[1..], listener)
  }

  /** Every other listener keeps its number of registrations; `listener` loses all of its. */
  lemma {:induction false} WithoutCounts(xs: seq<ListenerId>, listener: ListenerId)
    ensures multiset(Without(xs, listener))[listener] == 0
    ensures forall y :: y != listener ==> multiset(Without(xs, listener))[y] == multiset(xs)[y]
    ensures |Without(xs, listener)| == |xs| - multiset(xs)[listener]
  {
    if xs != [] {
      WithoutCounts(xs[1..], listener);
      assert xs == [xs[0]] + xs[1..];
      var head: seq<ListenerId> := if xs[0] == listener then [] else [xs[0]];
      assert Without(xs, listener) == head + Without(xs[1..], listener);
      assert multiset(xs) == multiset([xs[0]]) + multiset(xs[1..]);
    }
  }

  /** Filtering distributes over concatenation, so the kept listeners keep
      their relative order. */
  lemma {:induction false} WithoutConcat(a: seq<ListenerId>, b: seq<ListenerId>, listener: ListenerId)
    ensures Without(a + b, listener) == Without(a, listener) + Without(b, listener)
  {
    if a != [] {
      var ab := a + b;
      assert ab[0] == a[0];
      assert ab[1..] == a[1..] + b;
      WithoutConcat(a[1..], b, listener);
    } else {
      assert a + b == b;
    }
  }

  /** Removing a listener that is not registered changes nothing. */
  lemma {:induction false} WithoutAbsent(xs: seq<ListenerId>, listener: ListenerId)
    requires listener !in xs
    ensures Without(xs, listener) == xs
  {
    if xs != [] {
      WithoutAbsent(xs[1..], listener);
    }
  }

  /** Removing twice is the same as removing once. */
  lemma WithoutIdempotent(xs: seq<ListenerId>, listener: ListenerId)
    ensures Without(Without(xs, listener), listener) == Without(xs, listener)
  {
    WithoutAbsent(Without(xs, listener), listener);
  }

  /** Adding a listener (any number of times) and then removing it leaves the
      list as removing it alone would. */
  lemma AddThenRemove(xs: seq<ListenerId>, listener: ListenerId)
    ensures Without(xs + [listener], listener) == Without(xs, listener)
  {
    WithoutConcat(xs, [listener], listener);
    assert Without([listener], listener) == [];
  }

  /** A map from event to the listeners registered for it, in registration order. */
  class EventManager {
    var listeners: map<EventType, seq<ListenerId>>

    constructor ()
      ensures listeners == map[]
    {
      listeners := map[];
    }

    /** The listeners of `event`; an absent list reads as empty. */
    function ListenersOf(event: EventType): (r: seq<ListenerId>)
      reads this
      ensures event !in listeners ==> r == []
    {
      if event in listeners then listeners[event] else []
    }

    /** Appends, creating the list when absent; no de-duplication. */
    method AddEventListener(event: EventType, listener: ListenerId)
      modifies this
      ensures listeners == old(listeners)[event := old(ListenersOf(event)) + [listener]]
      ensures multiset(ListenersOf(event))[listener] == multiset(old(ListenersOf(event)))[listener] + 1
    {
      if event !in listeners {
        listeners := listeners[event := []];
      }
      listeners := listeners[event := listeners[event] + [listener]];
    }

    /** Drops every occurrence of `listener`; a no-op for an event with no list. */
    method RemoveEventListener(event: EventType, listener: ListenerId)
      modifies this
      ensures event in old(listeners) ==>
        listeners == old(listeners)[event := Without(old(listeners)[event], listener)]
      ensures event !in old(listeners) ==> listeners == old(listeners)
      ensures listener !in ListenersOf(event)
    {
      if event in listeners {
        listeners := listeners[event := Without(listeners[event], listener)];
      }
    }

    /** `emit`: invokes the listeners in registration order; returns the
        ids in the order they were invoked. */
    method Emit(event: EventType) returns (invoked: seq<ListenerId>)
      ensures invoked == ListenersOf(event)
    {
      invoked := [];
      if event in listeners {
        var list := listeners[event];
        for i := 0 to |list|
          invariant invoked == list[..i]
        {
          invoked := invoked + [list[i]];
        }
        assert list[..|list|] == list;
      }
    }
  }
}
