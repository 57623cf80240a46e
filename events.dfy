/** The values the listener registry works on: event types and their hierarchy,
    events, listeners, registration records and listener calls. */
module Events {
  import opened Wrappers

  /** An event type node. `id` stands for the node's object identity (two nodes
      built separately are distinct even under the same parent); the display name
      plays no part in matching and is left out. A node is built from an already
      existing super type, so every chain of super types is finite. */
  datatype EventType = EventType(id: nat, superType: Option<EventType>)

  /** An event: its source and its own exact type. */
  datatype Event = Event(source: nat, eventType: EventType)

  /** A listener, identified by reference. */
  datatype Listener = Listener(id: nat)

  /** The (type, listener) pair stored in the registry; equality is structural. */
  datatype Registration = Registration(eventType: EventType, listener: Listener)

  /** One invocation of a listener's callback with an event. */
  datatype Call = Call(listener: Listener, event: Event)

  /** The constructor of a registration record, which rejects a null type or a
      null listener. */
  function NewRegistration(eventType: Option<EventType>, listener: Option<Listener>): Result<Registration>
  {
    if eventType.None? || listener.None? then Failure(IllegalArgument)
    else Success(Registration(eventType.value, listener.value))
  }

  /** The length of the chain of super types starting at `t`: the rank that
      decreases along every super-type link. */
  function Depth(t: Option<EventType>): nat
  {
    match t
    case None => 0
    case Some(n) => 1 + Depth(n.superType)
  }

  /** The ancestor-or-self set of `t`: `t` and every type reached by following
      super-type links; empty for null. */
  function SuperTypes(t: Option<EventType>): set<EventType>
    decreases Depth(t)
  {
    match t
    case None => {}
    case Some(n) => {n} + SuperTypes(n.superType)
  }

  /** The type reached from `t` by following `n` super-type links. */
  function SuperTypeN(t: Option<EventType>, n: nat): Option<EventType>
    decreases n
  {
    if n == 0 || t.None? then t else SuperTypeN(t.value.superType, n - 1)
  }

  /** `x` is an ancestor-or-self of `t` exactly when some number of super-type
      steps leads from `t` to `x`. */
  lemma {:induction false} SuperTypesReachable(t: Option<EventType>, x: EventType)
    ensures x in SuperTypes(t) <==> exists n: nat :: SuperTypeN(t, n) == Some(x)
  {
    if x in SuperTypes(t) {
      var n := StepsTo(t, x);
      assert SuperTypeN(t, n) == Some(x);
    }
    if exists n: nat :: SuperTypeN(t, n) == Some(x) {
      var n: nat :| SuperTypeN(t, n) == Some(x);
      ReachedIsSuperType(t, x, n);
    }
  }

  /** The number of super-type steps from `t` to one of its ancestors-or-self. */
  lemma {:induction false} StepsTo(t: Option<EventType>, x: EventType) returns (n: nat)
    requires x in SuperTypes(t)
    ensures SuperTypeN(t, n) == Some(x)
    decreases Depth(t)
  {
    if t.value == x {
      n := 0;
    } else {
      var m := StepsTo(t.value.superType, x);
      n := m + 1;
    }
  }

  lemma {:induction false} ReachedIsSuperType(t: Option<EventType>, x: EventType, n: nat)
    requires SuperTypeN(t, n) == Some(x)
    ensures x in SuperTypes(t)
    decreases n
  {
    if n > 0 && t.Some? {
      ReachedIsSuperType(t.value.superType, x, n - 1);
    }
  }

  /** The ancestor-or-self set of an ancestor is contained in that of `t`. */
  lemma {:induction false} SuperTypesTransitive(t: Option<EventType>, x: EventType)
    requires x in SuperTypes(t)
    ensures SuperTypes(Some(x)) <= SuperTypes(t)
    decreases Depth(t)
  {
    if t.value != x {
      SuperTypesTransitive(t.value.superType, x);
    }
  }

  /** Every strict ancestor of `t` sits strictly higher in the hierarchy. */
  lemma {:induction false} SuperTypeDepth(t: Option<EventType>, x: EventType)
    requires x in SuperTypes(t)
    ensures Depth(Some(x)) <= Depth(t)
    ensures Depth(Some(x)) == Depth(t) ==> t == Some(x)
    decreases Depth(t)
  {
    if t.value != x {
      SuperTypeDepth(t.value.superType, x);
    }
  }

  /** Two types that are ancestors-or-self of each other are the same type: the
      hierarchy has no cycles. */
  lemma SuperTypesAntisymmetric(a: EventType, b: EventType)
    requires a in SuperTypes(Some(b)) && b in SuperTypes(Some(a))
    ensures a == b
  {
    SuperTypeDepth(Some(b), a);
    SuperTypeDepth(Some(a), b);
  }

  /** A strict sub type is never an ancestor-or-self of its base type, so a
      registration for a sub type does not accept base-type events. */
  lemma SubTypeNotAccepted(sub: EventType, base: EventType)
    requires base in SuperTypes(Some(sub)) && sub != base
    ensures sub !in SuperTypes(Some(base))
  {
    if sub in SuperTypes(Some(base)) {
      SuperTypesAntisymmetric(sub, base);
    }
  }
}
