/** The listener registry: an ordered sequence of registration records with
    add, remove, fire and query operations. */
module Registry {
  import opened Wrappers
  import opened Events
  import opened ListenerIterator

  /** Removal by value as `List.remove(Object)` does it: only the first element
      equal to `x` goes, the others keep their order. */
  function RemoveFirst<T(==)>(s: seq<T>, x: T): seq<T>
  {
    if s == [] then []
    else if s[0] == x then s[1..]
    else [s[0]] + RemoveFirst(s[1..], x)
  }

  /** When `x` occurs, exactly its first occurrence is cut out. */
  lemma {:induction false} RemoveFirstPresent<T>(s: seq<T>, x: T) returns (i: nat)
    requires x in s
    ensures i < |s| && s[i] == x && x !in s[..i]
    ensures RemoveFirst(s, x) == s[..i] + s[i + 1..]
  {
    if s[0] == x {
      i := 0;
    } else {
      var j := RemoveFirstPresent(s[1..], x);
      i := j + 1;
      assert s[..i] == [s[0]] + s[1..][..j];
      assert s[i + 1..] == s[1..][j + 1..];
    }
  }

  /** When `x` does not occur, nothing is removed. */
  lemma {:induction false} RemoveFirstAbsent<T>(s: seq<T>, x: T)
    requires x !in s
    ensures RemoveFirst(s, x) == s
  {
    if s != [] {
      RemoveFirstAbsent(s[1..], x);
    }
  }

  /** Removal takes one occurrence of `x` away and leaves every other element's
      count as it was. */
  lemma {:induction false} RemoveFirstMultiset<T>(s: seq<T>, x: T)
    ensures multiset(RemoveFirst(s, x)) == multiset(s) - multiset{x}
  {
    if s != [] {
      assert s == [s[0]] + s[1..];
      if s[0] != x {
        RemoveFirstMultiset(s[1..], x);
      }
    }
  }

  /** After the only registration of a record has been removed, a second
      removal of it finds nothing. */
  lemma RemoveOnlyOnce<T>(s: seq<T>, x: T)
    requires multiset(s)[x] == 1
    ensures x !in RemoveFirst(s, x)
  {
    RemoveFirstMultiset(s, x);
  }

  /** Removing a record just added undoes the addition when it had not been
      registered before. */
  lemma {:induction false} RemoveAfterAdd<T>(s: seq<T>, x: T)
    ensures RemoveFirst(s + [x], x) == if x in s then RemoveFirst(s, x) + [x] else s
  {
    if s == [] {
      assert s + [x] == [x];
    } else {
      assert (s + [x])[1..] == s[1..] + [x];
      RemoveAfterAdd(s[1..], x);
      if s[0] != x && x in s {
        assert x in s[1..];
      }
    }
  }

  /** Removing the record of a listener under one type leaves its records under
      every other type. */
  lemma RemoveKeepsOtherTypes(s: seq<Registration>, t: EventType, u: EventType, l: Listener)
    requires t != u
    ensures multiset(RemoveFirst(s, Registration(t, l)))[Registration(u, l)] ==
            multiset(s)[Registration(u, l)]
  {
    RemoveFirstMultiset(s, Registration(t, l));
  }

  class EventListenerList {
    /** The registration records, in registration order. */
    var listeners: seq<Registration>

    constructor ()
      ensures listeners == []
    {
      listeners := [];
    }

    /** Registers `listener` for `eventType` by appending a new record; a null
        argument raises IllegalArgument and leaves the list unchanged. */
    method AddEventListener(eventType: Option<EventType>, listener: Option<Listener>) returns (r: Outcome)
      modifies this
      ensures r == if eventType.Some? && listener.Some? then Pass else Fail(IllegalArgument)
      ensures r.Pass? ==> listeners == old(listeners) + [Registration(eventType.value, listener.value)]
      ensures r.Fail? ==> listeners == old(listeners)
    {
      var regData := NewRegistration(eventType, listener);
      if regData.Failure? {
        return Fail(regData.error);
      }
      listeners := listeners + [regData.value];
      r := Pass;
    }

    /** Appends a pre-built record; a null record raises IllegalArgument and
        leaves the list unchanged. */
    method AddRegistration(regData: Option<Registration>) returns (r: Outcome)
      modifies this
      ensures r == if regData.Some? then Pass else Fail(IllegalArgument)
      ensures r.Pass? ==> listeners == old(listeners) + [regData.value]
      ensures r.Fail? ==> listeners == old(listeners)
    {
      if regData.None? {
        return Fail(IllegalArgument);
      }
      listeners := listeners + [regData.value];
      r := Pass;
    }

    /** Removes the first record for (`eventType`, `listener`); false, with the
        list unchanged, when an argument is null or there is no such record. */
    method RemoveEventListener(eventType: Option<EventType>, listener: Option<Listener>) returns (removed: bool)
      modifies this
      ensures eventType.None? || listener.None? ==> !removed && listeners == old(listeners)
      ensures eventType.Some? && listener.Some? ==>
                var regData := Registration(eventType.value, listener.value);
                && removed == (regData in old(listeners))
                && listeners == RemoveFirst(old(listeners), regData)
    {
      if listener.None? || eventType.None? {
        return false;
      }
      removed := RemoveRegistration(Some(Registration(eventType.value, listener.value)));
    }

    /** Removes the first record equal to `regData` and tells whether there was
        one; a null record removes nothing. */
    method RemoveRegistration(regData: Option<Registration>) returns (removed: bool)
      modifies this
      ensures removed == (regData.Some? && regData.value in old(listeners))
      ensures listeners == if regData.Some? then RemoveFirst(old(listeners), regData.value)
                           else old(listeners)
    {
      if regData.None? {
        return false;
      }
      removed := regData.value in listeners;
      if !removed {
        RemoveFirstAbsent(listeners, regData.value);
      }
      listeners := RemoveFirst(listeners, regData.value);
    }

    /** Delivers `event` to every listener registered for its type or an
        ancestor of it, in registration order, and returns the calls made; a
        null event raises IllegalArgument and calls nobody. The registry is not
        changed. */
    method Fire(event: Option<Event>) returns (r: Outcome, calls: seq<Call>)
      ensures event.None? ==> r == Fail(IllegalArgument) && calls == []
      ensures event.Some? ==>
                var matched := Matching(listeners, SuperTypes(Some(event.value.eventType)));
                && r == Pass
                && |calls| == |matched|
                && forall i :: 0 <= i < |calls| ==> calls[i] == Call(matched[i], event.value)
    {
      if event.None? {
        return Fail(IllegalArgument), [];
      }
      var ev := event.value;
      var it := GetEventListenerIterator(Some(ev.eventType));
      calls := [];
      while it.HasNext()
        invariant fresh(it) && it.Valid()
        invariant it.snapshot == listeners && it.acceptedTypes == SuperTypes(Some(ev.eventType))
        invariant |calls| == |it.yielded|
        invariant forall i :: 0 <= i < |calls| ==> calls[i] == Call(it.yielded[i], ev)
        decreases |it.Remaining()|
      {
        var call := it.InvokeNextListenerUnchecked(ev);
        calls := calls + [call.value];
      }
      r := Pass;
    }

    /** A restartable view of the listeners for `eventType`; each traversal
        starts a fresh iterator over the list as it is then. */
    method GetEventListeners(eventType: Option<EventType>) returns (iterable: EventListenerIterable)
      ensures fresh(iterable)
      ensures iterable.owner == this && iterable.eventType == eventType
    {
      iterable := new EventListenerIterable(this, eventType);
    }

    /** An iterator over a snapshot of the current records, yielding the
        listeners that accept `eventType`. */
    method GetEventListenerIterator(eventType: Option<EventType>) returns (it: EventListenerIterator)
      ensures fresh(it) && it.Valid()
      ensures it.snapshot == listeners && it.base == eventType && it.yielded == []
      ensures it.Remaining() == Matching(listeners, SuperTypes(eventType))
    {
      it := new EventListenerIterator(listeners, eventType);
    }
  }

  /** The `Iterable` handed out by `getEventListeners`. */
  class EventListenerIterable {
    const owner: EventListenerList
    const eventType: Option<EventType>

    constructor (owner: EventListenerList, eventType: Option<EventType>)
      ensures this.owner == owner && this.eventType == eventType
    {
      this.owner := owner;
      this.eventType := eventType;
    }

    /** A fresh iterator over the owner's records as they are now. */
    method Iterator() returns (it: EventListenerIterator)
      ensures fresh(it) && it.Valid()
      ensures it.snapshot == owner.listeners && it.base == eventType && it.yielded == []
      ensures it.Remaining() == Matching(owner.listeners, SuperTypes(eventType))
    {
      it := owner.GetEventListenerIterator(eventType);
    }
  }
}
