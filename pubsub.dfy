/** The publish/subscribe registry that sibling components share: a
  * dictionary from event name to the ordered list of listeners, each a
  * callback together with the object it is bound to. */
module PubSub {
  import opened Seqs

  /** Callbacks and the objects they are bound to are compared by identity,
    * so both are opaque ids here. */
  type CallbackId = int
  type OwnerId = int

  /** A page reference, reduced to its attribute dictionary. */
  datatype PageRef = PageRef(attributes: map<string, string>)

  datatype Listener = Listener(callback: CallbackId, owner: OwnerId)

  /** What `attributes[key]` reads: nothing for a key that is not there. */
  function Attribute(attrs: map<string, string>, key: string): Option<string> {
    if key in attrs then Some(attrs[key]) else None
  }

  /** `samePageRef`: every key of either page reads the same in both. */
  predicate SamePageRef(a: PageRef, b: PageRef) {
    forall k :: k in a.attributes.Keys + b.attributes.Keys ==>
      Attribute(a.attributes, k) == Attribute(b.attributes, k)
  }

  /** The comparison does not depend on the order of its arguments. */
  lemma SamePageRefSymmetric(a: PageRef, b: PageRef)
    ensures SamePageRef(a, b) <==> SamePageRef(b, a)
  {
    assert a.attributes.Keys + b.attributes.Keys == b.attributes.Keys + a.attributes.Keys;
  }

  /** Two page references are the same page exactly when their attribute
    * dictionaries are equal. */
  lemma SamePageRefIsEquality(a: PageRef, b: PageRef)
    ensures SamePageRef(a, b) <==> a == b
  {
    if SamePageRef(a, b) {
      forall k | k in a.attributes ensures k in b.attributes && a.attributes[k] == b.attributes[k] {
        assert Attribute(a.attributes, k) == Attribute(b.attributes, k);
      }
      forall k | k in b.attributes ensures k in a.attributes {
        assert Attribute(a.attributes, k) == Attribute(b.attributes, k);
      }
      assert a.attributes == b.attributes;
    }
  }

  /** The list registered for an event; an event never registered has none. */
  function ListenersOf(events: map<string, seq<Listener>>, name: string): seq<Listener> {
    if name in events then events[name] else []
  }

  /** `registerListener` on one list: the pair is appended unless it is there. */
  function AddListener(list: seq<Listener>, l: Listener): seq<Listener> {
    if l in list then list else list + [l]
  }

  /** `unregisterListener` on one list. */
  function RemoveListener(list: seq<Listener>, l: Listener): seq<Listener> {
    Filter(list, (x: Listener) => x != l)
  }

  /** `unregisterAllListeners` on one list. */
  function DropOwner(list: seq<Listener>, owner: OwnerId): seq<Listener> {
    Filter(list, (x: Listener) => x.owner != owner)
  }

  /** Adding keeps the earlier listeners where they were, holds the new one
    * afterwards exactly once, and adds at most one entry. */
  lemma AddListenerProperties(list: seq<Listener>, l: Listener)
    requires NoDuplicates(list)
    ensures NoDuplicates(AddListener(list, l))
    ensures l in AddListener(list, l)
    ensures AddListener(list, l)[..|list|] == list
    ensures |AddListener(list, l)| == |list| + (if l in list then 0 else 1)
  {
    if l !in list {
      var r := list + [l];
      forall i, j | 0 <= i < j < |r| ensures r[i] != r[j] {
        if j == |list| {
          assert r[i] == list[i];
        }
      }
      assert r[..|list|] == list;
    }
  }

  /** Registering the same pair twice is registering it once. */
  lemma AddListenerIdempotent(list: seq<Listener>, l: Listener)
    ensures AddListener(AddListener(list, l), l) == AddListener(list, l)
  {
    assert l in AddListener(list, l) by {
      if l !in list {
        assert (list + [l])[|list|] == l;
      }
    }
  }

  /** Removing takes out that pair and only that pair, keeping the order of
    * the rest; removing an absent pair changes nothing. */
  lemma RemoveListenerProperties(list: seq<Listener>, l: Listener)
    requires NoDuplicates(list)
    ensures NoDuplicates(RemoveListener(list, l))
    ensures l !in RemoveListener(list, l)
    ensures forall x :: x != l ==> (x in RemoveListener(list, l) <==> x in list)
    ensures l !in list ==> RemoveListener(list, l) == list
  {
    var p := (x: Listener) => x != l;
    FilterNoDuplicates(list, p);
    forall x | x != l ensures x in RemoveListener(list, l) <==> x in list {
      FilterMember(list, p, x);
    }
    if l !in list {
      FilterAllPass(list, p);
    }
  }

  /** Dropping an owner removes all of its entries and keeps every other one. */
  lemma DropOwnerProperties(list: seq<Listener>, owner: OwnerId)
    requires NoDuplicates(list)
    ensures NoDuplicates(DropOwner(list, owner))
    ensures forall x :: x in DropOwner(list, owner) <==> x in list && x.owner != owner
  {
    var p := (x: Listener) => x.owner != owner;
    FilterNoDuplicates(list, p);
    forall x ensures x in DropOwner(list, owner) <==> x in list && x.owner != owner {
      if p(x) {
        FilterMember(list, p, x);
      }
    }
  }

  /** `unregisterAllListeners` on the whole dictionary. */
  function WithoutOwner(events: map<string, seq<Listener>>, owner: OwnerId): map<string, seq<Listener>> {
    map name | name in events :: DropOwner(events[name], owner)
  }

  lemma WithoutOwnerIs(before: map<string, seq<Listener>>, after: map<string, seq<Listener>>, owner: OwnerId)
    requires after.Keys == before.Keys
    requires forall name :: name in after ==> after[name] == DropOwner(before[name], owner)
    ensures after == WithoutOwner(before, owner)
  {
  }

  /** After unregistering an object, no list mentions it, every entry of any
    * other object is still registered, and no event disappears. */
  lemma WithoutOwnerProperties(events: map<string, seq<Listener>>, owner: OwnerId, name: string, x: Listener)
    requires name in events && NoDuplicates(events[name])
    ensures name in WithoutOwner(events, owner)
    ensures x in WithoutOwner(events, owner)[name] <==> x in events[name] && x.owner != owner
  {
    DropOwnerProperties(events[name], owner);
  }

  /** What firing an event over a list of listeners does: the listeners
    * it calls, in order, and whether it stopped with an error because a
    * listener's object had lost its page reference. A callback that throws
    * is caught and does not stop the rest. */
  datatype Delivery = Delivery(calls: seq<Listener>, aborted: bool)

  function Deliver(list: seq<Listener>, page: PageRef, pageRefs: map<OwnerId, PageRef>): Delivery
    decreases |list|
  {
    if list == [] then Delivery([], false)
    else
      var d := Deliver(list[..|list| - 1], page, pageRefs);
      var l := list[|list| - 1];
      if d.aborted then d
      else if l.owner !in pageRefs then Delivery(d.calls, true)
      else if SamePageRef(page, pageRefs[l.owner]) then Delivery(d.calls + [l], false)
      else d
  }

  /** Once firing has stopped, later listeners are never reached. */
  lemma {:induction false} DeliverStopped(list: seq<Listener>, i: nat, page: PageRef, pageRefs: map<OwnerId, PageRef>)
    requires i <= |list| && Deliver(list[..i], page, pageRefs).aborted
    ensures Deliver(list, page, pageRefs) == Deliver(list[..i], page, pageRefs)
    decreases |list| - i
  {
    if i < |list| {
      assert list[..i + 1][..i] == list[..i];
      DeliverStopped(list, i + 1, page, pageRefs);
    } else {
      assert list[..i] == list;
    }
  }

  /** When every listener's object has a page reference, firing calls exactly
    * the listeners on the same page, in registration order. */
  lemma {:induction false} DeliverAllReachable(list: seq<Listener>, page: PageRef, pageRefs: map<OwnerId, PageRef>)
    requires forall i :: 0 <= i < |list| ==> list[i].owner in pageRefs
    ensures Deliver(list, page, pageRefs) ==
      Delivery(Filter(list, (x: Listener) => x.owner in pageRefs && SamePageRef(page, pageRefs[x.owner])), false)
    decreases |list|
  {
    if list != [] {
      var init := list[..|list| - 1];
      var l := list[|list| - 1];
      DeliverAllReachable(init, page, pageRefs);
      var p := (x: Listener) => x.owner in pageRefs && SamePageRef(page, pageRefs[x.owner]);
      assert init + [l] == list;
      FilterAppend(init, [l], p);
      assert [l][1..] == [];
    }
  }

  /** Firing stops exactly when some listener's object has no page reference. */
  lemma {:induction false} DeliverAbortsIff(list: seq<Listener>, page: PageRef, pageRefs: map<OwnerId, PageRef>)
    ensures Deliver(list, page, pageRefs).aborted <==> exists i :: 0 <= i < |list| && list[i].owner !in pageRefs
    decreases |list|
  {
    if list != [] {
      var init := list[..|list| - 1];
      DeliverAbortsIff(init, page, pageRefs);
      if exists i :: 0 <= i < |init| && init[i].owner !in pageRefs {
        var i :| 0 <= i < |init| && init[i].owner !in pageRefs;
        assert list[i] == init[i];
      }
      if exists i :: 0 <= i < |list| && list[i].owner !in pageRefs {
        var i :| 0 <= i < |list| && list[i].owner !in pageRefs;
        if i < |init| {
          assert init[i] == list[i];
        }
      }
    }
  }

  /** `find` over a listener list. */
  method FindListener(list: seq<Listener>, l: Listener) returns (found: bool)
    ensures found <==> l in list
  {
    var i := 0;
    while i < |list|
      invariant 0 <= i <= |list|
      invariant l !in list[..i]
    {
      if list[i] == l {
        return true;
      }
      assert list[..i + 1] == list[..i] + [list[i]];
      i := i + 1;
    }
    assert list[..i] == list;
    return false;
  }

  class Registry {
    /** The module-level `events` dictionary. */
    var events: map<string, seq<Listener>>

    /** No event lists the same pair twice. */
    ghost predicate Valid()
      reads this
    {
      forall name :: name in events ==> NoDuplicates(events[name])
    }

    constructor ()
      ensures Valid() && events == map[]
    {
      events := map[];
    }

    /** `registerListener`: fails, changing nothing, when the object has no
      * page reference; otherwise appends the pair to the event's list unless
      * it is already there. */
    method Register(name: string, callback: CallbackId, owner: OwnerId, pageRef: Option<PageRef>) returns (ok: bool)
      requires Valid()
      modifies this
      ensures Valid()
      ensures ok == pageRef.Some?
      ensures !ok ==> events == old(events)
      ensures ok ==> events == old(events)[name := AddListener(ListenersOf(old(events), name), Listener(callback, owner))]
    {
      if pageRef.None? {
        return false;
      }
      if name !in events {
        events := events[name := []];
      }
      var list := events[name];
      var l := Listener(callback, owner);
      var duplicate := FindListener(list, l);
      if !duplicate {
        events := events[name := list + [l]];
      }
      AddListenerProperties(list, l);
      return true;
    }

    /** `unregisterListener`: removes the pair from a known event's list. */
    method Unregister(name: string, callback: CallbackId, owner: OwnerId)
      requires Valid()
      modifies this
      ensures Valid()
      ensures name in old(events) ==>
        events == old(events)[name := RemoveListener(old(events)[name], Listener(callback, owner))]
      ensures name !in old(events) ==> events == old(events)
    {
      if name in events {
        RemoveListenerProperties(events[name], Listener(callback, owner));
        events := events[name := RemoveListener(events[name], Listener(callback, owner))];
      }
    }

    /** `unregisterAllListeners`: drops the object's entries from every list. */
    method UnregisterAll(owner: OwnerId)
      requires Valid()
      modifies this
      ensures Valid()
      ensures events == WithoutOwner(old(events), owner)
    {
      ghost var before := events;
      var pending := events.Keys;
      while pending != {}
        invariant pending <= events.Keys && events.Keys == before.Keys
        invariant Valid()
        invariant forall name :: name in pending ==> events[name] == before[name]
        invariant forall name :: name in events && name !in pending ==> events[name] == DropOwner(before[name], owner)
        decreases pending
      {
        var name :| name in pending;
        var dropped := DropOwner(events[name], owner);
        DropOwnerProperties(events[name], owner);
        events := events[name := dropped];
        pending := pending - {name};
      }
      WithoutOwnerIs(before, events, owner);
    }

    /** `fireEvent`: calls, in order, the listeners of the event whose object
      * is on the same page. */
    method Fire(page: PageRef, name: string, pageRefs: map<OwnerId, PageRef>) returns (outcome: Delivery)
      ensures outcome == Deliver(ListenersOf(events, name), page, pageRefs)
    {
      var list := ListenersOf(events, name);
      var calls := [];
      var i := 0;
      while i < |list|
        invariant 0 <= i <= |list|
        invariant Deliver(list[..i], page, pageRefs) == Delivery(calls, false)
      {
        var l := list[i];
        assert list[..i + 1][..i] == list[..i];
        if l.owner !in pageRefs {
          DeliverStopped(list, i + 1, page, pageRefs);
          return Delivery(calls, true);
        }
        if SamePageRef(page, pageRefs[l.owner]) {
          calls := calls + [l];
        }
        i := i + 1;
      }
      assert list[..i] == list;
      return Delivery(calls, false);
    }
  }

  /** Firing an event nobody registered calls nothing. */
  lemma FireUnknownEvent(events: map<string, seq<Listener>>, page: PageRef, name: string, pageRefs: map<OwnerId, PageRef>)
    requires name !in events
    ensures Deliver(ListenersOf(events, name), page, pageRefs) == Delivery([], false)
  {
  }
}
