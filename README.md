# EventListenerList — a verified model of the event listener registry

This project models `EventListenerList` from the Apache Commons Configuration
event package. The class keeps an ordered list of registration records, each a
pair of an event type and a listener. Event types form a hierarchy through
their super-type links. An event of type `T` goes to every listener
registered for `T` or for an ancestor of `T`. Such a type is called an
*ancestor-or-self* of `T`.

The model is split into five modules:

- `Wrappers` (`wrappers.dfy`): nullable references as `Option`. The three
  exceptions the class throws are `Error`. `Outcome` and `Result` hold either a
  normal return or an exception.
- `Events` (`events.dfy`): the values the registry works on.
  - `EventType` is a node with an identity and an optional super type. A node
    is built from a super type that already exists, so the chain of super types
    is finite and `Depth` is a rank that falls at every link.
  - `SuperTypes` is the ancestor-or-self set of a type. The lemmas show that it
    is exactly the set of types reachable by super-type steps, that it is
    transitive and that the hierarchy has no cycles.
  - `Event`, `Listener`, `Registration` and `Call` are plain values with
    structural equality.
- `ListenerIterator` (`listener_iterator.dfy`): the matching rule and the
  iterator.
  - `FetchSuperEventTypes` is the loop that collects the ancestor-or-self set.
  - `Matching` is the filter over records, with its lemmas.
  - The class `EventListenerIterator` works over a snapshot with a cursor
    (`pos`) and a staged element (`nextElement`). Its invariant `Valid()`
    states that the listeners already returned, followed by the ones still to
    come, are exactly `Matching(snapshot, SuperTypes(base))`.
- `Registry` (`registry.dfy`): the class `EventListenerList` with its `seq`
  field `listeners`, and the `Iterable` that `getEventListeners` returns.
  - `RemoveFirst` gives removal the meaning of `List.remove(Object)`. Lemmas
    cover where it cuts, the multiset it leaves and what happens when it is
    undone or repeated.
  - `Fire` drives the iterator and returns the calls it made, so its contract
    says exactly which listeners were called, in which order and with which
    event. `Fire` has no `modifies` clause: it cannot change the registry.
- `Scenarios` (`scenarios.dfy`): clients that follow the unit tests. Each one
  shows what a caller can conclude from the contracts alone.

Listener callbacks are outside the model. A call to a listener is the value
`Call(listener, event)`. `Fire` returns all the calls it made, and
`InvokeNext` returns the one call it made.

Where the description of the system and the code differ, the model follows
the code:

- The null checks of `addEventListener(type, listener)` are not in
  `EventListenerList`. They belong to the registration record's constructor,
  which is modelled as `Events.NewRegistration`.
- `validateEvent` tests whether the event's ancestor set contains the base
  type. For an iterator created with a null base type that test is always
  false: the set never holds null. So `invokeNext` on such an iterator always
  raises IllegalArgument, even for an iterator that yields nothing anyway.

## Model

| member | source | states |
|---|---|---|
| `ListenerIterator.FetchSuperEventTypes` | src/main/java/org/apache/commons/configuration/event/EventListenerList.java:221-231 | the loop over super-type links terminates and returns exactly the ancestor-or-self set of the type, which is empty for null |
| `Events.SuperTypesReachable` | src/main/java/org/apache/commons/configuration/event/EventListenerList.java:213-231 | a type is in the ancestor-or-self set of `t` if and only if some number of `getSuperType` steps leads from `t` to it |
| `Events.SuperTypesTransitive` | src/main/java/org/apache/commons/configuration/event/EventListenerList.java:213-216 | the ancestors of an ancestor of `t` are ancestors of `t` |
| `Events.SuperTypeDepth` | src/main/java/org/apache/commons/configuration/event/EventListenerList.java:225-229 | every ancestor-or-self of `t` has depth at most that of `t`, and equal depth only for `t` itself; this is the rank that makes the loop end |
| `Events.SuperTypesAntisymmetric` | src/main/java/org/apache/commons/configuration/event/EventListenerList.java:225-229 | two types that are ancestors-or-self of each other are equal, so the hierarchy has no cycles |
| `Events.SubTypeNotAccepted` | src/test/java/org/apache/commons/configuration/event/TestEventListenerList.java:147-155 | a strict sub type of a base type is not in the ancestor-or-self set of the base |
| `ListenerIterator.MatchingAppend` | src/main/java/org/apache/commons/configuration/event/EventListenerList.java:311-323 | matching over a concatenation is the concatenation of the matches, so registration order is kept |
| `ListenerIterator.MatchingMember` | src/main/java/org/apache/commons/configuration/event/EventListenerList.java:316-321 | a listener is matched if and only if some record with an accepted type holds it |
| `ListenerIterator.MatchingCount` | src/main/java/org/apache/commons/configuration/event/EventListenerList.java:311-323 | at most one match per record; every listener is kept, duplicates included, when all types are accepted; nothing is kept when none is |
| `ListenerIterator.MatchingSkipsSubType` | src/test/java/org/apache/commons/configuration/event/TestEventListenerList.java:147-155 | appending a registration for a strict sub type does not change the listeners matched for the base type |
| `ListenerIterator.MatchedTypesAcceptEvent` | src/main/java/org/apache/commons/configuration/event/EventListenerList.java:196-201 | when the base type is an ancestor-or-self of the event's type, so is the registered type of every matched record: no listener gets an incompatible event |
| `ListenerIterator.EventListenerIterator.constructor` | src/main/java/org/apache/commons/configuration/event/EventListenerList.java:256-263 | the new iterator keeps the snapshot and base type, accepts exactly the base's ancestor-or-self set, and has every matching listener of the snapshot still to return, in order |
| `ListenerIterator.EventListenerIterator.HasNext` | src/main/java/org/apache/commons/configuration/event/EventListenerList.java:265-269 | true if and only if the iteration has a listener left; a function, so it has no side effect |
| `ListenerIterator.EventListenerIterator.Next` | src/main/java/org/apache/commons/configuration/event/EventListenerList.java:271-282 | when exhausted: NoSuchElement and no state change; otherwise returns the first remaining listener, which is then dropped from what remains and added to what was returned |
| `ListenerIterator.EventListenerIterator.InvokeNext` | src/main/java/org/apache/commons/configuration/event/EventListenerList.java:291-295 | a null event or one whose type does not have the base type as an ancestor-or-self: IllegalArgument and no advance; otherwise it behaves as the unchecked invocation |
| `ListenerIterator.EventListenerIterator.Remove` | src/main/java/org/apache/commons/configuration/event/EventListenerList.java:301-306 | always UnsupportedOperation, and it changes nothing |
| `ListenerIterator.EventListenerIterator.InitNextElement` | src/main/java/org/apache/commons/configuration/event/EventListenerList.java:311-323 | moves the cursor forward, stages the next matching listener or nothing only at the end, and loses no match: staged plus matches after the cursor equals matches after the old cursor |
| `ListenerIterator.EventListenerIterator.ValidateEvent` | src/main/java/org/apache/commons/configuration/event/EventListenerList.java:333-342 | passes if and only if the event is non-null, the base type is non-null and the base type is in the event type's ancestor-or-self set; otherwise IllegalArgument |
| `ListenerIterator.EventListenerIterator.InvokeNextListenerUnchecked` | src/main/java/org/apache/commons/configuration/event/EventListenerList.java:351-355 | when exhausted: NoSuchElement and no state change; otherwise advances once and calls exactly the first remaining listener with the event |
| `Registry.RemoveFirstPresent` | src/main/java/org/apache/commons/configuration/event/EventListenerList.java:133-137 | when the record occurs, the result is the list with its first occurrence cut out and everything else in order |
| `Registry.RemoveFirstAbsent` | src/main/java/org/apache/commons/configuration/event/EventListenerList.java:133-137 | when the record does not occur, the list is unchanged |
| `Registry.RemoveFirstMultiset` | src/main/java/org/apache/commons/configuration/event/EventListenerList.java:133-137 | removal takes away exactly one occurrence of the record, if it has one, and keeps the count of every other record |
| `Registry.RemoveOnlyOnce` | src/test/java/org/apache/commons/configuration/event/TestEventListenerList.java:224-233 | after removing a record registered once, it is no longer present, so a second identical removal returns false |
| `Registry.RemoveAfterAdd` | src/main/java/org/apache/commons/configuration/event/EventListenerList.java:92-137 | removing a record just appended gives back the list before the addition when the record was new; otherwise the earlier occurrence goes |
| `Registry.RemoveKeepsOtherTypes` | src/test/java/org/apache/commons/configuration/event/TestEventListenerList.java:267-278 | removing a listener's record under one type leaves the count of its records under any other type unchanged |
| `Registry.EventListenerList.constructor` | src/main/java/org/apache/commons/configuration/event/EventListenerList.java:61-65 | a new registry holds no records |
| `Registry.EventListenerList.AddEventListener` | src/main/java/org/apache/commons/configuration/event/EventListenerList.java:67-80 | a null type or listener: IllegalArgument and no change; otherwise exactly the new record is appended after the old records |
| `Registry.EventListenerList.AddRegistration` | src/main/java/org/apache/commons/configuration/event/EventListenerList.java:92-101 | a null record: IllegalArgument and no change; otherwise exactly that record is appended after the old records |
| `Registry.EventListenerList.RemoveEventListener` | src/main/java/org/apache/commons/configuration/event/EventListenerList.java:115-121 | a null argument: false and no change; otherwise the same as removing the pair's record: true if and only if it was present, and only its first occurrence goes |
| `Registry.EventListenerList.RemoveRegistration` | src/main/java/org/apache/commons/configuration/event/EventListenerList.java:133-137 | true if and only if the record is non-null and present; the list loses its first occurrence only; a null record changes nothing |
| `Registry.EventListenerList.Fire` | src/main/java/org/apache/commons/configuration/event/EventListenerList.java:145-159 | a null event: IllegalArgument and no call; otherwise exactly one call per matching record, for the event's own type, in registration order, each with the same event; the registry is not modified |
| `Registry.EventListenerList.GetEventListeners` | src/main/java/org/apache/commons/configuration/event/EventListenerList.java:169-180 | returns a new iterable bound to this registry and the type, not a copy of the current list |
| `Registry.EventListenerList.GetEventListenerIterator` | src/main/java/org/apache/commons/configuration/event/EventListenerList.java:190-194 | a new iterator over a snapshot of the current records, with every listener matching the type still to return |
| `Registry.EventListenerIterable.constructor` | src/main/java/org/apache/commons/configuration/event/EventListenerList.java:172-179 | the iterable remembers the registry and the queried type |
| `Registry.EventListenerIterable.Iterator` | src/main/java/org/apache/commons/configuration/event/EventListenerList.java:174-178 | each traversal starts a new iterator over the registry's records as they are at that moment |
| `Scenarios.FetchListeners` | src/test/java/org/apache/commons/configuration/event/TestEventListenerList.java:286-296 | one full traversal of an iterable yields exactly the matching listeners of the current records, in order; for a null type it yields nothing |

## Left out

- Thread safety and the `CopyOnWriteArrayList` (lines 24 and 63-64). These are
  about concurrent interleavings. The registry is a `seq` field, and each
  iterator holds the immutable snapshot it was made from.
- The generic casts in `callListener` and `castListener` (lines 196-211 and
  357-371). They only satisfy Java's type checker. A listener call is recorded
  as a `Call` value.
- What listeners do when called. This includes a listener that throws while
  `fire` runs, which would stop the delivery early. Listener code is not part
  of this model.
- `Registry.EventListenerList.Fire`: does not model a listener exception that
  ends the firing early. Because of that, its contract always lists every
  matching listener.
- The classes `EventType`, `Event`, `EventListener` and
  `EventListenerRegistrationData` are not part of this model; they appear as
  the datatypes in `Events`.
  - Event type names are used only for display and are not modelled.
  - The payload of event subclasses is not modelled.
  - An event's own type is never null. The null check in `Event`'s
    constructor is not part of this model.
- The Java `Iterable` protocol inside `getEventListeners` is not modelled.
  What is modelled is that each traversal makes a new iterator over the current
  records.
- The test listener `ListenerTestImpl` and the test event classes.
