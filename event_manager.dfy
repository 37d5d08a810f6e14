/**
 * EventManager (src/battle/event_manager.cpp): the list of observers that
 * battle events are published to.
 *
 * Observers are external (they write to the console or a file); an observer
 * pointer is modelled by its identity, and notifying one is recorded as a
 * Delivery, so publishing yields the sequence of notify calls it makes.
 */
module Events {

  /** A possibly-null observer pointer. */
  datatype ObserverRef = NullObserver | Observer(id: nat)

  datatype BattleEvent = BattleEvent(action: string)

  /** One call observer->notify(event). */
  datatype Delivery = Delivery(observer: nat, event: BattleEvent)

  /** erase(remove(s, o)): every occurrence of `o` dropped, the rest kept in order. */
  function Without(s: seq<ObserverRef>, o: ObserverRef): (r: seq<ObserverRef>)
    ensures |r| <= |s|
  {
    if s == [] then []
    else (if s[0] == o then [] else [s[0]]) + Without(s[1..], o)
  }

  /** The notify calls publish makes: one per non-null entry, in list order. */
  function Deliveries(observers: seq<ObserverRef>, e: BattleEvent): (r: seq<Delivery>)
    ensures |r| <= |observers|
  {
    if observers == [] then []
    else
      (match observers[0] case Observer(id) => [Delivery(id, e)] case NullObserver => [])
      + Deliveries(observers[1..], e)
  }

  class EventManager {
    var observers: seq<ObserverRef>

    constructor ()
      ensures observers == []
    {
      observers := [];
    }

    /** subscribe: a non-null observer is appended (duplicates are kept); null is ignored. */
    method Subscribe(o: ObserverRef)
      modifies this
      ensures observers == if o == NullObserver then old(observers) else old(observers) + [o]
    {
      if o != NullObserver {
        observers := observers + [o];
      }
    }

    /** unsubscribe: every occurrence of `o` is removed; the others keep their order. */
    method Unsubscribe(o: ObserverRef)
      modifies this
      ensures observers == Without(old(observers), o)
    {
      var kept := [];
      var i := 0;
      while i < |observers|
        invariant 0 <= i <= |observers|
        invariant observers == old(observers)
        invariant kept == Without(observers[..i], o)
      {
        WithoutAppend(observers[..i], [observers[i]], o);
        assert observers[..i + 1] == observers[..i] + [observers[i]];
        if observers[i] != o {
          kept := kept + [observers[i]];
        }
        i := i + 1;
      }
      assert observers[..i] == observers;
      observers := kept;
    }

    /** publish: notifies each non-null observer once per occurrence, in subscription order; the list is unchanged. */
    method Publish(e: BattleEvent) returns (delivered: seq<Delivery>)
      ensures delivered == Deliveries(observers, e)
    {
      delivered := [];
      var i := 0;
      while i < |observers|
        invariant 0 <= i <= |observers|
        invariant delivered == Deliveries(observers[..i], e)
      {
        DeliveriesAppend(observers[..i], [observers[i]], e);
        assert observers[..i + 1] == observers[..i] + [observers[i]];
        if observers[i] != NullObserver {
          delivered := delivered + [Delivery(observers[i].id, e)];
        }
        i := i + 1;
      }
      assert observers[..i] == observers;
    }
  }

  lemma {:induction false} WithoutAppend(a: seq<ObserverRef>, b: seq<ObserverRef>, o: ObserverRef)
    ensures Without(a + b, o) == Without(a, o) + Without(b, o)
  {
    if a == [] {
      assert a + b == b;
    } else {
      var ab := a + b;
      assert ab[0] == a[0];
      assert ab[1..] == a[1..] + b;
      var head := if a[0] == o then [] else [a[0]];
      WithoutAppend(a[1..], b, o);
      assert head + (Without(a[1..], o) + Without(b, o)) == (head + Without(a[1..], o)) + Without(b, o);
    }
  }

  lemma {:induction false} DeliveriesAppend(a: seq<ObserverRef>, b: seq<ObserverRef>, e: BattleEvent)
    ensures Deliveries(a + b, e) == Deliveries(a, e) + Deliveries(b, e)
  {
    if a == [] {
      assert a + b == b;
    } else {
      var ab := a + b;
      assert ab[0] == a[0];
      assert ab[1..] == a[1..] + b;
      var head := match a[0] case Observer(id) => [Delivery(id, e)] case NullObserver => [];
      DeliveriesAppend(a[1..], b, e);
      assert head + (Deliveries(a[1..], e) + Deliveries(b, e)) == (head + Deliveries(a[1..], e)) + Deliveries(b, e);
    }
  }

  /** Unsubscribing removes every copy of `o` and keeps every copy of everything else. */
  lemma {:induction false} WithoutCounts(s: seq<ObserverRef>, o: ObserverRef, x: ObserverRef)
    ensures multiset(Without(s, o))[x] == if x == o then 0 else multiset(s)[x]
  {
    if s != [] {
      var head := if s[0] == o then [] else [s[0]];
      WithoutCounts(s[1..], o, x);
      assert Without(s, o) == head + Without(s[1..], o);
      assert multiset(Without(s, o))[x] == multiset(head)[x] + multiset(Without(s[1..], o))[x];
      assert s == [s[0]] + s[1..];
      assert multiset(s)[x] == multiset([s[0]])[x] + multiset(s[1..])[x];
    }
  }

  /** Unsubscribing an observer that is not subscribed changes nothing; unsubscribing twice is unsubscribing once. */
  lemma {:induction false} WithoutAbsent(s: seq<ObserverRef>, o: ObserverRef)
    requires o !in s
    ensures Without(s, o) == s
  {
    if s != [] {
      assert s[0] != o;
      assert o !in s[1..];
      WithoutAbsent(s[1..], o);
      assert s == [s[0]] + s[1..];
    }
  }

  lemma WithoutIdempotent(s: seq<ObserverRef>, o: ObserverRef)
    ensures Without(Without(s, o), o) == Without(s, o)
  {
    WithoutCounts(s, o, o);
    assert o !in multiset(Without(s, o));
    WithoutAbsent(Without(s, o), o);
  }

  /**
   * Publishing notifies, in order, exactly the non-null entries of the list:
   * the k-th notify goes to the k-th non-null observer.
   */
  lemma {:induction false} DeliveriesFollowList(s: seq<ObserverRef>, e: BattleEvent)
    ensures |Deliveries(s, e)| == |Without(s, NullObserver)|
    ensures forall k :: 0 <= k < |Deliveries(s, e)| ==>
      Without(s, NullObserver)[k] != NullObserver && Deliveries(s, e)[k] == Delivery(Without(s, NullObserver)[k].id, e)
  {
    if s != [] {
      DeliveriesFollowList(s[1..], e);
      var rest := Without(s[1..], NullObserver);
      if s[0] != NullObserver {
        assert Without(s, NullObserver) == [s[0]] + rest;
        assert Deliveries(s, e) == [Delivery(s[0].id, e)] + Deliveries(s[1..], e);
      }
    }
  }

  /** An observer subscribed n times is notified n times per publish. */
  lemma {:induction false} DeliveriesPerObserver(s: seq<ObserverRef>, e: BattleEvent, id: nat)
    ensures multiset(Deliveries(s, e))[Delivery(id, e)] == multiset(s)[Observer(id)]
  {
    if s != [] {
      DeliveriesPerObserver(s[1..], e, id);
      assert s == [s[0]] + s[1..];
      assert multiset(s) == multiset([s[0]]) + multiset(s[1..]);
      var head := match s[0] case Observer(i) => [Delivery(i, e)] case NullObserver => [];
      assert multiset(Deliveries(s, e)) == multiset(head) + multiset(Deliveries(s[1..], e));
    }
  }
}
