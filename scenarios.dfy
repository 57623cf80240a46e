/** Clients of the registry that follow the unit tests of `EventListenerList`:
    what a caller can conclude from the contracts alone. The hierarchy is
    ANY <- BASE <- {SUB1, SUB2}. */
module Scenarios {
  import opened Wrappers
  import opened Events
  import opened ListenerIterator
  import opened Registry

  const Any := EventType(0, None)
  const Base := EventType(1, Some(Any))
  const Sub1 := EventType(2, Some(Base))
  const Sub2 := EventType(3, Some(Base))

  /** Collects every listener of one traversal of an iterable, as the test
      helper `fetchListeners` does. */
  method FetchListeners(iterable: EventListenerIterable) returns (ls: seq<Listener>)
    ensures ls == Matching(iterable.owner.listeners, SuperTypes(iterable.eventType))
  {
    var it := iterable.Iterator();
    ls := [];
    while it.HasNext()
      invariant fresh(it) && it.Valid()
      invariant it.snapshot == iterable.owner.listeners && it.acceptedTypes == SuperTypes(iterable.eventType)
      invariant ls == it.yielded
      decreases |it.Remaining()|
    {
      var l := it.Next();
      ls := ls + [l.value];
    }
  }

  method TestSuppressEventOfSuperType()
  {
    var list := new EventListenerList();
    var listener := Listener(1);
    var _ := list.AddEventListener(Some(Sub1), Some(listener));
    MatchingSkipsSubType([], Base, Sub1, listener);
    var r, calls := list.Fire(Some(Event(0, Base)));
    assert r == Pass && calls == [];
  }

  method TestReceiveEventSubType()
  {
    var list := new EventListenerList();
    var listener := Listener(1);
    var _ := list.AddEventListener(Some(Base), Some(listener));
    var e := Event(0, Sub1);
    assert Base in SuperTypes(Some(Sub1));
    var r, calls := list.Fire(Some(e));
    assert calls == [Call(listener, e)];
  }

  method TestMultipleListenerRegistration()
  {
    var list := new EventListenerList();
    var listener := Listener(1);
    var _ := list.AddEventListener(Some(Sub1), Some(listener));
    var _ := list.AddEventListener(Some(Sub2), Some(listener));
    assert list.listeners == [Registration(Sub1, listener), Registration(Sub2, listener)];
    var e2 := Event(0, Sub2);
    assert Sub1 !in SuperTypes(Some(Sub2));
    MatchingAppend([Registration(Sub1, listener)], [Registration(Sub2, listener)], SuperTypes(Some(Sub2)));
    var _, calls2 := list.Fire(Some(e2));
    assert calls2 == [Call(listener, e2)];
    var removed := list.RemoveEventListener(Some(Sub1), Some(listener));
    assert removed && list.listeners == [Registration(Sub2, listener)];
    assert Sub2 !in SuperTypes(Some(Sub1));
    var _, calls1 := list.Fire(Some(Event(0, Sub1)));
    assert calls1 == [];
  }

  method TestRemoveEventListenerTwice()
  {
    var list := new EventListenerList();
    var listener := Listener(1);
    var _ := list.AddEventListener(Some(Sub1), Some(listener));
    var wrongType := list.RemoveEventListener(Some(Base), Some(listener));
    assert !wrongType;
    var first := list.RemoveEventListener(Some(Sub1), Some(listener));
    var second := list.RemoveEventListener(Some(Sub1), Some(listener));
    assert first && !second && list.listeners == [];
    var none := list.RemoveRegistration(None);
    assert !none;
  }

  method TestEventListenerIteratorWrongEvent()
  {
    var list := new EventListenerList();
    var _ := list.AddEventListener(Some(Sub2), Some(Listener(1)));
    var it := list.GetEventListenerIterator(Some(Sub2));
    assert Sub2 in SuperTypes(Some(Sub2));
    assert it.HasNext();
    assert Sub2 !in SuperTypes(Some(Base));
    var r := it.InvokeNext(Some(Event(0, Base)));
    assert r == Failure(IllegalArgument) && it.HasNext();
    var n := it.InvokeNext(None);
    assert n == Failure(IllegalArgument);
  }

  method TestIteratorNextNoElement()
  {
    var list := new EventListenerList();
    var _ := list.AddEventListener(Some(Base), Some(Listener(1)));
    var _ := list.AddEventListener(Some(Base), Some(Listener(2)));
    var it := list.GetEventListenerIterator(Some(Base));
    MatchingAppend([Registration(Base, Listener(1))], [Registration(Base, Listener(2))], SuperTypes(Some(Base)));
    assert it.Remaining() == [Listener(1), Listener(2)];
    var a := it.Next();
    var b := it.Next();
    var c := it.Next();
    assert a == Success(Listener(1)) && b == Success(Listener(2));
    assert c == Failure(NoSuchElement);
    var rm := it.Remove();
    assert rm == Fail(UnsupportedOperation);
  }

  method TestGetEventListenersNull()
  {
    var list := new EventListenerList();
    var _ := list.AddEventListener(Some(Base), Some(Listener(1)));
    var iterable := list.GetEventListeners(None);
    var ls := FetchListeners(iterable);
    MatchingCount(list.listeners, {});
    assert ls == [];
  }

  method TestGetEventListenersNotCached()
  {
    var list := new EventListenerList();
    var iterable := list.GetEventListeners(Some(Sub1));
    var before := FetchListeners(iterable);
    var _ := list.AddEventListener(Some(Base), Some(Listener(1)));
    assert Base in SuperTypes(Some(Sub1));
    var after := FetchListeners(iterable);
    assert before == [] && after == [Listener(1)];
  }
}
