/** The iterator over the listeners of a registry snapshot that accept a base
    event type, with its matching rule and the ancestor-set computation. */
module ListenerIterator {
  import opened Wrappers
  import opened Events

  /** Computes the ancestor-or-self set of a type by walking its super-type links. */
  method FetchSuperEventTypes(eventType: Option<EventType>) returns (types: set<EventType>)
    ensures types == SuperTypes(eventType)
  {
    types := {};
    var currentType := eventType;
    while currentType.Some?
      invariant types + SuperTypes(currentType) == SuperTypes(eventType)
      decreases Depth(currentType)
    {
      types := types + {currentType.value};
      currentType := currentType.value.superType;
    }
  }

  /** The listeners of the records in `regs` whose type is in `accepted`, in
      order and with duplicates kept. */
  function Matching(regs: seq<Registration>, accepted: set<EventType>): seq<Listener>
  {
    if regs == [] then []
    else (if regs[0].eventType in accepted then [regs[0].listener] else [])
         + Matching(regs[1..], accepted)
  }

  /** Matching is a filter: it distributes over concatenation, so it keeps the
      records' order. */
  lemma {:induction false} MatchingAppend(a: seq<Registration>, b: seq<Registration>, accepted: set<EventType>)
    ensures Matching(a + b, accepted) == Matching(a, accepted) + Matching(b, accepted)
  {
    if a != [] {
      assert (a + b)[1..] == a[1..] + b;
      MatchingAppend(a[1..], b, accepted);
    } else {
      assert a + b == b;
    }
  }

  /** A listener is matched exactly when some record with an accepted type
      holds it. */
  lemma {:induction false} MatchingMember(regs: seq<Registration>, accepted: set<EventType>, l: Listener)
    ensures l in Matching(regs, accepted) <==>
            exists i :: 0 <= i < |regs| && regs[i].listener == l && regs[i].eventType in accepted
  {
    if regs != [] {
      MatchingMember(regs[1..], accepted, l);
      if exists i :: 0 <= i < |regs| && regs[i].listener == l && regs[i].eventType in accepted {
        var i :| 0 <= i < |regs| && regs[i].listener == l && regs[i].eventType in accepted;
        if i > 0 {
          assert regs[1..][i - 1] == regs[i];
        }
      }
      if l in Matching(regs[1..], accepted) {
        var j :| 0 <= j < |regs| - 1 && regs[1..][j].listener == l && regs[1..][j].eventType in accepted;
        assert regs[j + 1] == regs[1..][j];
      }
    }
  }

  /** One match per record whose type is accepted: every record is kept when
      all types are accepted, and the result is empty when none is. */
  lemma {:induction false} MatchingCount(regs: seq<Registration>, accepted: set<EventType>)
    ensures |Matching(regs, accepted)| <= |regs|
    ensures (forall i :: 0 <= i < |regs| ==> regs[i].eventType in accepted) ==>
            Matching(regs, accepted) == seq(|regs|, i requires 0 <= i < |regs| => regs[i].listener)
    ensures (forall i :: 0 <= i < |regs| ==> regs[i].eventType !in accepted) ==>
            Matching(regs, accepted) == []
  {
    if regs != [] {
      MatchingCount(regs[1..], accepted);
    }
  }

  /** A registration for a type below the query's type is never matched. */
  lemma MatchingSkipsSubType(regs: seq<Registration>, base: EventType, sub: EventType, l: Listener)
    requires base in SuperTypes(Some(sub)) && sub != base
    ensures Matching(regs + [Registration(sub, l)], SuperTypes(Some(base))) ==
            Matching(regs, SuperTypes(Some(base)))
  {
    SubTypeNotAccepted(sub, base);
    MatchingAppend(regs, [Registration(sub, l)], SuperTypes(Some(base)));
  }

  /** An event accepted for the base type is compatible with every listener the
      iterator yields: the listener's registered type is an ancestor-or-self of
      the event's type. */
  lemma MatchedTypesAcceptEvent(regs: seq<Registration>, base: EventType, e: Event, i: nat)
    requires base in SuperTypes(Some(e.eventType))
    requires i < |regs| && regs[i].eventType in SuperTypes(Some(base))
    ensures regs[i].eventType in SuperTypes(Some(e.eventType))
  {
    SuperTypesTransitive(Some(e.eventType), base);
  }

  /** The listener iterator over a snapshot of the registry. The underlying
      snapshot iterator is `snapshot` with the cursor `pos`; `nextElement` is the
      staged listener. `yielded` records what `Next` has returned so far. */
  class EventListenerIterator {
    const snapshot: seq<Registration>
    const base: Option<EventType>
    const acceptedTypes: set<EventType>
    var pos: nat
    var nextElement: Option<Listener>
    ghost var yielded: seq<Listener>

    /** The staged listener, as a sequence of length 0 or 1. */
    function Staged(): seq<Listener>
      reads this
    {
      if nextElement.Some? then [nextElement.value] else []
    }

    /** The listeners the iteration has still to return, in order. */
    ghost function Remaining(): seq<Listener>
      reads this
      requires pos <= |snapshot|
    {
      Staged() + Matching(snapshot[pos..], acceptedTypes)
    }

    /** The iterator invariant: the accepted types are the base type's
        ancestors-or-self, nothing is staged only at the end of the snapshot,
        and what was returned followed by what remains is every match. */
    ghost predicate Valid()
      reads this
    {
      && pos <= |snapshot|
      && acceptedTypes == SuperTypes(base)
      && (nextElement.None? ==> pos == |snapshot|)
      && yielded + Remaining() == Matching(snapshot, acceptedTypes)
    }

    constructor (snapshot: seq<Registration>, base: Option<EventType>)
      ensures Valid()
      ensures this.snapshot == snapshot && this.base == base && yielded == []
      ensures Remaining() == Matching(snapshot, SuperTypes(base))
    {
      this.snapshot := snapshot;
      this.base := base;
      var accepted := FetchSuperEventTypes(base);
      acceptedTypes := accepted;
      pos := 0;
      nextElement := None;
      yielded := [];
      new;
      assert snapshot[0..] == snapshot;
      InitNextElement();
    }

    /** Whether a listener is staged; it is exactly when the iteration has
        something left to return. */
    function HasNext(): (b: bool)
      reads this
      requires Valid()
      ensures b <==> Remaining() != []
    {
      nextElement.Some?
    }

    /** Returns the staged listener and stages the following match, or fails when
        the iteration is exhausted. */
    method Next() returns (r: Result<Listener>)
      requires Valid()
      modifies this`pos, this`nextElement, this`yielded
      ensures Valid()
      ensures old(Remaining()) == [] ==>
                r == Failure(NoSuchElement) && unchanged(this)
      ensures old(Remaining()) != [] ==>
                && r == Success(old(Remaining())[0])
                && Remaining() == old(Remaining())[1..]
                && yielded == old(yielded) + [r.value]
    {
      if nextElement.None? {
        return Failure(NoSuchElement);
      }
      var result := nextElement.value;
      InitNextElement();
      yielded := yielded + [result];
      r := Success(result);
    }

    /** Checks the event, then calls the next listener with it. A null event, a
        null base type or a base type that is not an ancestor-or-self of the
        event's type raises IllegalArgument without advancing. */
    method InvokeNext(event: Option<Event>) returns (r: Result<Call>)
      requires Valid()
      modifies this`pos, this`nextElement, this`yielded
      ensures Valid()
      ensures !(event.Some? && Compatible(base, event.value)) ==>
                r == Failure(IllegalArgument) && unchanged(this)
      ensures event.Some? && Compatible(base, event.value) && old(Remaining()) == [] ==>
                r == Failure(NoSuchElement) && unchanged(this)
      ensures event.Some? && Compatible(base, event.value) && old(Remaining()) != [] ==>
                && r == Success(Call(old(Remaining())[0], event.value))
                && Remaining() == old(Remaining())[1..]
                && yielded == old(yielded) + [old(Remaining())[0]]
    {
      var valid := ValidateEvent(event);
      if valid.Fail? {
        return Failure(valid.error);
      }
      r := InvokeNextListenerUnchecked(event.value);
    }

    /** Removal through the iterator is not supported. */
    method Remove() returns (r: Outcome)
      ensures r == Fail(UnsupportedOperation)
    {
      r := Fail(UnsupportedOperation);
    }

    /** Scans the snapshot from the cursor up to the next record with an accepted
        type and stages its listener, or stages nothing at the end. */
    method InitNextElement()
      requires pos <= |snapshot|
      modifies this`pos, this`nextElement
      ensures old(pos) <= pos <= |snapshot|
      ensures nextElement.None? ==> pos == |snapshot|
      ensures Staged() + Matching(snapshot[pos..], acceptedTypes) ==
              Matching(snapshot[old(pos)..], acceptedTypes)
    {
      nextElement := None;
      while pos < |snapshot| && nextElement.None?
        invariant old(pos) <= pos <= |snapshot|
        invariant Staged() + Matching(snapshot[pos..], acceptedTypes) ==
                  Matching(snapshot[old(pos)..], acceptedTypes)
      {
        var regData := snapshot[pos];
        assert snapshot[pos..][1..] == snapshot[pos + 1..];
        pos := pos + 1;
        if regData.eventType in acceptedTypes {
          nextElement := Some(regData.listener);
        }
      }
    }

    /** The check `invokeNext` makes before calling a listener. */
    method ValidateEvent(event: Option<Event>) returns (r: Outcome)
      ensures r.Pass? <==> event.Some? && Compatible(base, event.value)
      ensures r.Fail? ==> r.error == IllegalArgument
    {
      if event.None? {
        return Fail(IllegalArgument);
      }
      var types := FetchSuperEventTypes(Some(event.value.eventType));
      if base.None? || base.value !in types {
        return Fail(IllegalArgument);
      }
      r := Pass;
    }

    /** Advances and calls the obtained listener with the event, without
        checking the event. */
    method InvokeNextListenerUnchecked(event: Event) returns (r: Result<Call>)
      requires Valid()
      modifies this`pos, this`nextElement, this`yielded
      ensures Valid()
      ensures old(Remaining()) == [] ==>
                r == Failure(NoSuchElement) && unchanged(this)
      ensures old(Remaining()) != [] ==>
                && r == Success(Call(old(Remaining())[0], event))
                && Remaining() == old(Remaining())[1..]
                && yielded == old(yielded) + [old(Remaining())[0]]
    {
      var listener := Next();
      if listener.Failure? {
        return Failure(listener.error);
      }
      r := Success(Call(listener.value, event));
    }
  }

  /** An event may be passed to the listeners of an iteration over `base` when
      `base` is an ancestor-or-self of the event's type; never for a null base. */
  predicate Compatible(base: Option<EventType>, event: Event)
  {
    base.Some? && base.value in SuperTypes(Some(event.eventType))
  }
}
