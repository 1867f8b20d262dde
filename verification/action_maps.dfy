/** Callback bookkeeping of one action map of the generated wrapper — the
    `PlayerActions` and `UIActions` structs, which differ only in the actions
    they own. A map keeps the list of registered callback interfaces and,
    for every (action, phase) slot, the list of subscribed callbacks. A
    subscriber is identified by object identity; a callback interface passed
    in may also be `null`. */
module ActionMaps {
  import opened SubscriberLists
  import opened Catalog

  /** One event of one action: its `started`, `performed` or `canceled` list. */
  datatype Slot = Slot(action: ActionName, phase: Phase)

  /** The identity of a callback-interface object: C# compares the
      registered interfaces by reference, so only identity matters here. */
  type ObjectId = int

  /** A callback-interface argument, which C# allows to be `null`. */
  datatype Ref = Null | Obj(id: ObjectId)

  datatype ActionMap = ActionMap(
    name: MapName,
    enabled: bool,
    callbackInterfaces: seq<ObjectId>,
    subscribers: map<Slot, seq<ObjectId>>)

  /** Every slot of a list of actions, in the order the wrapper touches them:
      per action, `started`, then `performed`, then `canceled`. */
  function SlotsOf(actions: seq<ActionName>): (r: seq<Slot>)
    ensures |r| == 3 * |actions|
    ensures forall s :: s in r <==> s.action in actions
    ensures NoDup(actions) ==> NoDup(r)
  {
    if |actions| == 0 then []
    else
      var a := actions[0];
      var head := [Slot(a, Started), Slot(a, Performed), Slot(a, Canceled)];
      var tail := SlotsOf(actions[1..]);
      assert forall s :: s in actions ==> s == a || s in actions[1..];
      assert forall s :: s in head <==> s.action == a by {
        forall s: Slot | s.action == a ensures s in head {
          if s.phase == Started {
            assert s == head[0];
          } else if s.phase == Performed {
            assert s == head[1];
          } else {
            assert s == head[2];
          }
        }
      }
      assert NoDup(actions) ==> NoDup(head + tail) by {
        if NoDup(actions) {
          assert NoDup(actions[1..]);
          assert a !in actions[1..];
          forall i, j | 0 <= i < j < |head + tail| ensures (head + tail)[i] != (head + tail)[j] {
            if j >= 3 {
              assert (head + tail)[j] == tail[j - 3];
              assert tail[j - 3] in tail;
            }
          }
        }
      }
      head + tail
  }

  /** The slots of a map: three per action it owns. */
  function Slots(m: MapName): seq<Slot> {
    SlotsOf(Actions(m))
  }

  /** A map's subscriber list for a slot; a slot nobody touched has none. */
  function Subscribers(subs: map<Slot, seq<ObjectId>>, s: Slot): seq<ObjectId> {
    if s in subs then subs[s] else []
  }

  /** Bookkeeping invariant: the registration list has no duplicates, every
      slot of the map and no other has a subscriber list, and each of those
      lists equals the registration list. */
  ghost predicate Inv(m: ActionMap) {
    && NoDup(m.callbackInterfaces)
    && (forall s :: s in m.subscribers <==> s.action in Actions(m.name))
    && (forall s :: s in m.subscribers ==> m.subscribers[s] == m.callbackInterfaces)
  }

  /** A map as the wrapper's constructor leaves it: disabled, nothing registered. */
  function Fresh(name: MapName): (r: ActionMap)
    ensures Inv(r) && r.name == name
    ensures !r.enabled && r.callbackInterfaces == []
    ensures forall s :: s in Slots(name) ==> Subscribers(r.subscribers, s) == []
  {
    ActionMap(name, false, [], map s | s in Slots(name) :: [])
  }

  /** Every slot the map touches: those that already have a list, and `slots`. */
  function Touched(subs: map<Slot, seq<ObjectId>>, slots: seq<Slot>): set<Slot> {
    subs.Keys + set s | s in slots
  }

  /** The `+= instance.OnX` statements of `AddCallbacks`: `x` is subscribed
      to each slot of `slots`. The statements touch distinct slots, so their
      order does not matter to the result. */
  function SubscribeSlots(subs: map<Slot, seq<ObjectId>>, slots: seq<Slot>, x: ObjectId): map<Slot, seq<ObjectId>> {
    map s | s in Touched(subs, slots) :: if s in slots then Subscribe(Subscribers(subs, s), x) else subs[s]
  }

  /** The private `UnregisterCallbacks`: the `-= instance.OnX` statements,
      `x` unsubscribed from each slot of `slots`. */
  function UnregisterCallbacks(subs: map<Slot, seq<ObjectId>>, slots: seq<Slot>, x: ObjectId): (r: map<Slot, seq<ObjectId>>)
    ensures r.Keys == subs.Keys + set s | s in slots
    ensures forall s :: s in slots ==> r[s] == RemoveFirst(Subscribers(subs, s), x)
    ensures forall s :: s in subs && s !in slots ==> r[s] == subs[s]
  {
    map s | s in Touched(subs, slots) :: if s in slots then RemoveFirst(Subscribers(subs, s), x) else subs[s]
  }

  /** `AddCallbacks(instance)`: ignores `null` and an instance already
      registered; otherwise appends it to the registration list and
      subscribes it to every slot of the map. */
  function AddCallbacks(m: ActionMap, instance: Ref): (r: ActionMap)
    ensures instance.Null? ==> r == m
    ensures instance.Obj? && instance.id in m.callbackInterfaces ==> r == m
    ensures instance.Obj? && instance.id !in m.callbackInterfaces ==>
      && r.name == m.name && r.enabled == m.enabled
      && r.callbackInterfaces == m.callbackInterfaces + [instance.id]
    ensures Inv(m) ==> Inv(r)
    ensures Inv(m) ==> r.subscribers.Keys == m.subscribers.Keys
    ensures Inv(m) && instance.Obj? && instance.id !in m.callbackInterfaces ==>
      forall s :: s in m.subscribers ==> r.subscribers[s] == m.subscribers[s] + [instance.id]
  {
    if instance.Null? || instance.id in m.callbackInterfaces then m
    else
      var x := instance.id;
      var r := m.(callbackInterfaces := m.callbackInterfaces + [x],
                  subscribers := SubscribeSlots(m.subscribers, Slots(m.name), x));
      assert Inv(m) ==> Inv(r) by {
        if Inv(m) {
          SubscribeFacts(m.callbackInterfaces, x);
          forall s | s in r.subscribers ensures r.subscribers[s] == r.callbackInterfaces {
            assert s in Slots(m.name);
          }
        }
      }
      assert Inv(m) ==> r.subscribers.Keys == m.subscribers.Keys by {
        if Inv(m) {
          InvSameKeys(m, r);
        }
      }
      r
  }

  /** `RemoveCallbacks(instance)`: if the instance is registered, takes it
      out of the registration list and unsubscribes it from every slot;
      otherwise (including `null`, which is never registered) does nothing. */
  function RemoveCallbacks(m: ActionMap, instance: Ref): (r: ActionMap)
    ensures (instance.Null? || instance.id !in m.callbackInterfaces) ==> r == m
    ensures instance.Obj? && instance.id in m.callbackInterfaces ==>
      && r.name == m.name && r.enabled == m.enabled
      && multiset(r.callbackInterfaces) == multiset(m.callbackInterfaces) - multiset{instance.id}
      && exists i :: 0 <= i < |m.callbackInterfaces| && m.callbackInterfaces[i] == instance.id
           && instance.id !in m.callbackInterfaces[..i]
           && r.callbackInterfaces == m.callbackInterfaces[..i] + m.callbackInterfaces[i + 1..]
    ensures Inv(m) ==> Inv(r)
    ensures Inv(m) ==> r.subscribers.Keys == m.subscribers.Keys
    ensures Inv(m) && instance.Obj? ==>
      forall s :: s in m.subscribers ==>
        r.subscribers[s] == RemoveFirst(m.subscribers[s], instance.id) && instance.id !in r.subscribers[s]
  {
    if instance.Obj? && instance.id in m.callbackInterfaces then
      var x := instance.id;
      var r := m.(callbackInterfaces := RemoveFirst(m.callbackInterfaces, x),
                  subscribers := UnregisterCallbacks(m.subscribers, Slots(m.name), x));
      RemoveFirstFacts(m.callbackInterfaces, x);
      assert Inv(m) ==> Inv(r) by {
        if Inv(m) {
          forall s | s in r.subscribers ensures r.subscribers[s] == r.callbackInterfaces {
            assert s in Slots(m.name);
          }
        }
      }
      assert Inv(m) ==> r.subscribers.Keys == m.subscribers.Keys by {
        if Inv(m) {
          InvSameKeys(m, r);
        }
      }
      assert Inv(m) ==> forall s :: s in m.subscribers ==> r.subscribers[s] == RemoveFirst(m.subscribers[s], x) by {
        if Inv(m) {
          forall s | s in m.subscribers ensures r.subscribers[s] == RemoveFirst(m.subscribers[s], x) {
            assert s in Slots(m.name);
          }
        }
      }
      r
    else
      assert Inv(m) && instance.Obj? ==> forall s :: s in m.subscribers ==> RemoveFirst(m.subscribers[s], instance.id) == m.subscribers[s] by {
        if Inv(m) && instance.Obj? {
          RemoveFirstFacts(m.callbackInterfaces, instance.id);
        }
      }
      m
  }

  /** Two consistent records of the same map have the same slots. */
  lemma InvSameKeys(a: ActionMap, b: ActionMap)
    requires Inv(a) && Inv(b) && a.name == b.name
    ensures a.subscribers.Keys == b.subscribers.Keys
  {
    assert forall s :: s in a.subscribers <==> s in b.subscribers;
  }

  /** The `foreach` of `SetCallbacks`: every registered interface is
      unregistered from every slot of the map, front to back. On a map that
      keeps the invariant, every slot ends up with no subscriber. */
  method UnregisterAll(m: ActionMap) returns (subs: map<Slot, seq<ObjectId>>)
    ensures AllSlotsHold(m.subscribers, Slots(m.name), m.callbackInterfaces) ==> AllSlotsHold(subs, Slots(m.name), [])
  {
    var slots := Slots(m.name);
    ghost var holds := AllSlotsHold(m.subscribers, slots, m.callbackInterfaces);
    subs := m.subscribers;
    var rest := m.callbackInterfaces;
    while rest != []
      invariant holds ==> AllSlotsHold(subs, slots, rest)
    {
      if holds {
        UnregisterFront(subs, slots, rest);
      }
      subs := UnregisterCallbacks(subs, slots, rest[0]);
      rest := rest[1..];
    }
  }

  /** `SetCallbacks(instance)`: unsubscribes every registered interface,
      clears the registration list, then adds `instance`. Afterwards exactly
      `instance` is registered (nothing, for `null`), and on a map that kept
      the invariant every slot holds exactly that. */
  method SetCallbacks(m: ActionMap, instance: Ref) returns (r: ActionMap)
    ensures r.name == m.name && r.enabled == m.enabled
    ensures r.callbackInterfaces == (if instance.Null? then [] else [instance.id])
    ensures Inv(m) ==> Inv(r)
    ensures Inv(m) ==> forall s :: s in Slots(m.name) ==> Subscribers(r.subscribers, s) == r.callbackInterfaces
  {
    var subs := UnregisterAll(m);
    r := AddCallbacks(m.(callbackInterfaces := [], subscribers := subs), instance);
    if Inv(m) {
      InvSlots(m);
      SetFinish(m, subs, instance);
    }
  }

  /** Exactly the slots `slots` have a list, and each of those lists is `l`. */
  ghost predicate AllSlotsHold(subs: map<Slot, seq<ObjectId>>, slots: seq<Slot>, l: seq<ObjectId>) {
    && (forall s :: s in subs <==> s in slots)
    && (forall s :: s in subs ==> subs[s] == l)
  }

  /** Once every registration is unregistered and the list is cleared,
      adding `instance` leaves a map that satisfies the invariant, with every
      slot holding exactly the new registration list. */
  lemma SetFinish(m: ActionMap, subs: map<Slot, seq<ObjectId>>, instance: Ref)
    requires AllSlotsHold(subs, Slots(m.name), [])
    ensures Inv(AddCallbacks(m.(callbackInterfaces := [], subscribers := subs), instance))
  {
    assert Inv(m.(callbackInterfaces := [], subscribers := subs));
  }

  /** Under the invariant every slot of the map holds the registration list. */
  lemma InvSlots(m: ActionMap)
    requires Inv(m)
    ensures AllSlotsHold(m.subscribers, Slots(m.name), m.callbackInterfaces)
  {
  }

  /** One turn of the `SetCallbacks` loop: when every slot holds the
      registrations not yet visited, unregistering the first of them leaves
      every slot holding the rest. */
  lemma UnregisterFront(subs: map<Slot, seq<ObjectId>>, slots: seq<Slot>, rest: seq<ObjectId>)
    requires rest != []
    requires AllSlotsHold(subs, slots, rest)
    ensures AllSlotsHold(UnregisterCallbacks(subs, slots, rest[0]), slots, rest[1..])
  {
    RemoveHead(rest);
  }

  /** `Enable()`: the map's actions become live; its bookkeeping is untouched. */
  function Enable(m: ActionMap): (r: ActionMap)
    ensures r.enabled
    ensures r.(enabled := m.enabled) == m
  {
    m.(enabled := true)
  }

  /** `Disable()`: the map's actions go quiet; its bookkeeping is untouched. */
  function Disable(m: ActionMap): (r: ActionMap)
    ensures !r.enabled
    ensures r.(enabled := m.enabled) == m
  {
    m.(enabled := false)
  }

  /** Registering the same instance twice is the same as registering it once. */
  lemma AddCallbacksIdempotent(m: ActionMap, instance: Ref)
    ensures AddCallbacks(AddCallbacks(m, instance), instance) == AddCallbacks(m, instance)
  {
  }

  /** Adding an unregistered instance and then removing it restores the map exactly. */
  lemma AddRemoveRoundTrip(m: ActionMap, x: ObjectId)
    requires Inv(m)
    requires x !in m.callbackInterfaces
    ensures RemoveCallbacks(AddCallbacks(m, Obj(x)), Obj(x)) == m
  {
    var slots := Slots(m.name);
    var added := SubscribeSlots(m.subscribers, slots, x);
    var removed := UnregisterCallbacks(added, slots, x);
    var a := m.(callbackInterfaces := m.callbackInterfaces + [x], subscribers := added);
    assert AddCallbacks(m, Obj(x)) == a;
    RemoveUndoesSubscribe(m.callbackInterfaces, x);
    assert x in a.callbackInterfaces;
    assert RemoveCallbacks(a, Obj(x)) == m.(subscribers := removed);
    SubscribersRestored(m.subscribers, slots, x);
  }

  /** Per-slot lists that all lack `x` come back unchanged after `x` is
      subscribed to and then unregistered from every slot. */
  lemma SubscribersRestored(subs: map<Slot, seq<ObjectId>>, slots: seq<Slot>, x: ObjectId)
    requires forall s :: s in subs <==> s in slots
    requires forall s :: s in subs ==> x !in subs[s]
    ensures UnregisterCallbacks(SubscribeSlots(subs, slots, x), slots, x) == subs
  {
    var removed := UnregisterCallbacks(SubscribeSlots(subs, slots, x), slots, x);
    KeysRestored(subs, slots, x);
    EntriesRestored(subs, slots, x);
    SameEntries(removed, subs);
  }

  lemma KeysRestored(subs: map<Slot, seq<ObjectId>>, slots: seq<Slot>, x: ObjectId)
    requires forall s :: s in subs <==> s in slots
    ensures UnregisterCallbacks(SubscribeSlots(subs, slots, x), slots, x).Keys == subs.Keys
  {
  }

  lemma EntriesRestored(subs: map<Slot, seq<ObjectId>>, slots: seq<Slot>, x: ObjectId)
    requires forall s :: s in subs <==> s in slots
    requires forall s :: s in subs ==> x !in subs[s]
    ensures forall s :: s in subs ==>
      s in UnregisterCallbacks(SubscribeSlots(subs, slots, x), slots, x)
      && UnregisterCallbacks(SubscribeSlots(subs, slots, x), slots, x)[s] == subs[s]
  {
    forall s | s in subs
      ensures s in UnregisterCallbacks(SubscribeSlots(subs, slots, x), slots, x)
      ensures UnregisterCallbacks(SubscribeSlots(subs, slots, x), slots, x)[s] == subs[s]
    {
      RemoveUndoesSubscribe(subs[s], x);
    }
  }

  /** Two maps with the same keys and the same value at every key are equal. */
  lemma SameEntries<K, V>(a: map<K, V>, b: map<K, V>)
    requires a.Keys == b.Keys
    requires forall k :: k in a ==> a[k] == b[k]
    ensures a == b
  {
  }
}
