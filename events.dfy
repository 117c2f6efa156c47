// DefaultApplicationEventMulticaster: the listeners of an application context and the
// delivery of an event to each of them.
module Events {
  import opened Wrappers
  import opened Values
  import opened Runtime
  import opened BeanFactory

  /** No listener occurs twice. */
  predicate Distinct(s: seq<Obj>)
  {
    forall i, j :: 0 <= i < j < |s| ==> s[i] != s[j]
  }

  /** `s` with `l` taken out, the others in their order. */
  function Without(s: seq<Obj>, l: Obj): (r: seq<Obj>)
    ensures forall x :: x in r <==> x in s && x != l
    ensures Distinct(s) ==> Distinct(r)
    ensures |r| <= |s|
  {
    if s == [] then []
    else
      var front := Without(s[..|s| - 1], l);
      var last := s[|s| - 1];
      assert forall x :: x in s <==> x in s[..|s| - 1] || x == last;
      assert Distinct(s) ==> Distinct(s[..|s| - 1]) && last !in s[..|s| - 1] by {
        if Distinct(s) {
          var init := s[..|s| - 1];
          forall k | 0 <= k < |init|
            ensures init[k] != last
          {
            assert s[k] != s[|s| - 1];
          }
        }
      }
      if last == l then front else front + [last]
  }

  /** Removing a listener that is there once closes the gap it leaves; one that is not there changes nothing. */
  lemma {:induction false} RemoveClosesGap(a: seq<Obj>, b: seq<Obj>, l: Obj)
    requires l !in a && l !in b
    ensures Without(a, l) == a
    ensures Without(a + [l] + b, l) == a + b
    decreases |b|
  {
    if b == [] {
      RemoveNothing(a, l);
      assert a + [l] + b == a + [l];
      assert (a + [l])[..|a + [l]| - 1] == a;
    } else {
      var b' := b[..|b| - 1];
      RemoveClosesGap(a, b', l);
      assert (a + [l] + b)[..|a + [l] + b| - 1] == a + [l] + b';
      assert a + b' + [b[|b| - 1]] == a + b;
    }
  }

  /** Removing an absent listener changes nothing. */
  lemma {:induction false} RemoveNothing(s: seq<Obj>, l: Obj)
    requires l !in s
    ensures Without(s, l) == s
    decreases |s|
  {
    if s != [] {
      RemoveNothing(s[..|s| - 1], l);
    }
  }

  /** The calls that deliver `event` to each listener in turn. */
  function EventCalls(listeners: seq<Obj>, event: Event): (r: seq<Call>)
    ensures |r| == |listeners|
    ensures forall i :: 0 <= i < |r| ==> r[i] == OnEvent(listeners[i], event)
  {
    if listeners == [] then [] else [OnEvent(listeners[0], event)] + EventCalls(listeners[1..], event)
  }

  /** A duplicate-free list stays duplicate-free without its head, and its head is not in the rest. */
  lemma DistinctTail(s: seq<Obj>)
    requires Distinct(s) && s != []
    ensures Distinct(s[1..]) && s[0] !in s[1..]
  {
    var rest := s[1..];
    forall k | 0 <= k < |rest|
      ensures rest[k] != s[0]
    {
      assert rest[k] == s[k + 1];
    }
  }

  /** The number of calls that deliver `event` to `l`: one if `l` is registered, none otherwise. */
  lemma {:induction false} CallsToListener(listeners: seq<Obj>, event: Event, l: Obj)
    requires Distinct(listeners)
    ensures multiset(EventCalls(listeners, event))[OnEvent(l, event)] == if l in listeners then 1 else 0
    decreases |listeners|
  {
    if listeners != [] {
      var rest := listeners[1..];
      DistinctTail(listeners);
      CallsToListener(rest, event, l);
      var head := [OnEvent(listeners[0], event)];
      assert EventCalls(listeners, event) == head + EventCalls(rest, event);
      assert multiset(head + EventCalls(rest, event)) == multiset(head) + multiset(EventCalls(rest, event));
      assert l in listeners <==> l == listeners[0] || l in rest;
    }
  }

  /** Each registered listener is called exactly once with the event, and no one else is called. */
  lemma EachListenerOnce(listeners: seq<Obj>, event: Event, l: Obj)
    requires Distinct(listeners)
    ensures multiset(EventCalls(listeners, event))[OnEvent(l, event)] == if l in listeners then 1 else 0
    ensures forall c :: c in EventCalls(listeners, event) ==> c.OnEvent? && c.event == event && c.listener in listeners
  {
    CallsToListener(listeners, event, l);
    var calls := EventCalls(listeners, event);
    forall c | c in calls
      ensures c.OnEvent? && c.event == event && c.listener in listeners
    {
      var i :| 0 <= i < |calls| && calls[i] == c;
    }
  }

  class ApplicationEventMulticaster {
    /** The registered listeners, a set that keeps insertion order. */
    var listeners: seq<Obj>

    ghost predicate Valid()
      reads this
    {
      Distinct(listeners)
    }

    constructor ()
      ensures Valid() && listeners == []
    {
      listeners := [];
    }

    /** `getApplicationListeners`: a read-only view of the listeners. */
    function GetApplicationListeners(): (r: set<Obj>)
      reads this
      ensures forall x :: x in r <==> x in listeners
    {
      set x | x in listeners
    }

    /** `addApplicationListener`: added at the end unless already there. */
    method AddApplicationListener(listener: Obj)
      requires Valid()
      modifies this
      ensures Valid()
      ensures listener in old(listeners) ==> listeners == old(listeners)
      ensures listener !in old(listeners) ==> listeners == old(listeners) + [listener]
    {
      if listener !in listeners {
        listeners := listeners + [listener];
      }
    }

    /** `removeApplicationListener`: the listener leaves, the others keep their order. */
    method RemoveApplicationListener(listener: Obj)
      requires Valid()
      modifies this
      ensures Valid()
      ensures listeners == Without(old(listeners), listener)
    {
      listeners := Without(listeners, listener);
    }

    /** `removeAllListeners`. */
    method RemoveAllListeners()
      modifies this
      ensures Valid() && listeners == []
    {
      listeners := [];
    }

    /**
     * `multicastEvent`: every listener, in registration order, is told of the event; an
     * exception thrown by one propagates and the rest are not told.
     */
    method MulticastEvent(event: Event, runtime: DefaultListableBeanFactory) returns (o: Outcome)
      modifies runtime`log
      ensures o == RunOutcome(runtime.world.outcome, EventCalls(listeners, event))
      ensures runtime.log == old(runtime.log) + Attempted(runtime.world.outcome, EventCalls(listeners, event))
    {
      o := runtime.Perform(EventCalls(listeners, event));
    }
  }
}
