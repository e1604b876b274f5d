/** The informer: it keeps the store up to date and tells subscribers what changed. */
module Informer {
  import opened Wrappers
  import opened Sequences
  import opened Store

  datatype Event = Added(obj: Object) | Updated(prior: Option<Object>, obj: Object) | Deleted(obj: Object)

  datatype EventType = BOOKMARK | ADDED | MODIFIED | DELETED | ERROR

  // ----- what a subscriber sees -----

  /** A subscriber that keeps its own copy, whatever it is told. */
  function Show(view: Items, e: Event): Items {
    match e
    case Added(o) => view[o.key := o]
    case Updated(_, o) => view[o.key := o]
    case Deleted(o) => view - {o.key}
  }

  function ShowAll(view: Items, events: seq<Event>): Items
    decreases |events|
  {
    if events == [] then view else ShowAll(Show(view, events[0]), events[1..])
  }

  /** A strict subscriber: an object is added only when absent, updated only from the object it
      holds and within one UID, and deleted only while it holds that UID. */
  predicate Sound(view: Items, e: Event) {
    match e
    case Added(o) => o.key !in view
    case Updated(prior, o) => o.key in view && prior == Some(view[o.key]) && view[o.key].uid == o.uid
    case Deleted(o) => o.key in view && view[o.key].uid == o.uid
  }

  predicate AllSound(view: Items, events: seq<Event>)
    decreases |events|
  {
    events == [] || (Sound(view, events[0]) && AllSound(Show(view, events[0]), events[1..]))
  }

  lemma {:induction false} ShowAppend(view: Items, a: seq<Event>, b: seq<Event>)
    ensures ShowAll(view, a + b) == ShowAll(ShowAll(view, a), b)
    ensures AllSound(view, a + b) <==> AllSound(view, a) && AllSound(ShowAll(view, a), b)
    decreases |a|
  {
    if a == [] {
      assert a + b == b;
    } else {
      assert (a + b)[1..] == a[1..] + b;
      ShowAppend(Show(view, a[0]), a[1..], b);
    }
  }

  // ----- relisting -----

  predicate Replaced(previous: Items, current: Items, key: string)
    requires key in previous
  {
    key !in current || previous[key].uid != current[key].uid
  }

  predicate New(previous: Items, current: Items, key: string)
    requires key in current
  {
    key !in previous || previous[key].uid != current[key].uid
  }

  /** What is reported about one stored key, and about one listed key. */
  function Departure(previous: Items, current: Items, key: string): seq<Event>
    requires key in previous
  {
    if Replaced(previous, current, key) then [Deleted(previous[key])] else []
  }

  function Arrival(previous: Items, current: Items, key: string): Event
    requires key in current
  {
    if New(previous, current, key) then Added(current[key]) else Updated(Some(previous[key]), current[key])
  }

  function Deletions(order: seq<string>, previous: Items, current: Items): seq<Event>
    requires forall k <- order :: k in previous
  {
    if order == [] then []
    else
      var n := |order| - 1;
      Deletions(order[..n], previous, current) + Departure(previous, current, order[n])
  }

  function Arrivals(order: seq<string>, previous: Items, current: Items): seq<Event>
    requires forall k <- order :: k in current
  {
    if order == [] then []
    else
      var n := |order| - 1;
      Arrivals(order[..n], previous, current) + [Arrival(previous, current, order[n])]
  }

  lemma {:induction false} DeletionsAnywhere(order: seq<string>, previous: Items, current: Items, view: Items,
                                             key: string)
    requires forall k <- order :: k in previous && previous[k].key == k
    ensures Lookup(ShowAll(view, Deletions(order, previous, current)), key)
            == if key in order && Replaced(previous, current, key) then None else Lookup(view, key)
  {
    if order != [] {
      var n := |order| - 1;
      DeletionsAnywhere(order[..n], previous, current, view, key);
      var last := Departure(previous, current, order[n]);
      ShowAppend(view, Deletions(order[..n], previous, current), last);
      assert key in order <==> key in order[..n] || key == order[n];
    }
  }

  lemma {:induction false} ArrivalsAnywhere(order: seq<string>, previous: Items, current: Items, view: Items,
                                            key: string)
    requires forall k <- order :: k in current && current[k].key == k
    ensures Lookup(ShowAll(view, Arrivals(order, previous, current)), key)
            == if key in order then Some(current[key]) else Lookup(view, key)
  {
    if order != [] {
      var n := |order| - 1;
      ArrivalsAnywhere(order[..n], previous, current, view, key);
      var last := Arrival(previous, current, order[n]);
      ShowAppend(view, Arrivals(order[..n], previous, current), [last]);
      assert key in order <==> key in order[..n] || key == order[n];
    }
  }

  lemma {:induction false} DeletionsSound(order: seq<string>, previous: Items, current: Items, view: Items)
    requires NoRepeats(order)
    requires forall k <- order :: k in previous && previous[k].key == k && Lookup(view, k) == Some(previous[k])
    ensures AllSound(view, Deletions(order, previous, current))
  {
    if order != [] {
      var n := |order| - 1;
      var rest, key := order[..n], order[n];
      DeletionsSound(rest, previous, current, view);
      DeletionsAnywhere(rest, previous, current, view, key);
      assert key !in rest && key in order;
      ShowAppend(view, Deletions(rest, previous, current), Departure(previous, current, key));
    }
  }

  lemma {:induction false} ArrivalsSound(order: seq<string>, previous: Items, current: Items, view: Items)
    requires NoRepeats(order)
    requires forall k <- order :: k in current && current[k].key == k
    requires forall k <- order :: Lookup(view, k) == if New(previous, current, k) then None else Some(previous[k])
    ensures AllSound(view, Arrivals(order, previous, current))
  {
    if order != [] {
      var n := |order| - 1;
      var rest, key := order[..n], order[n];
      ArrivalsSound(rest, previous, current, view);
      ArrivalsAnywhere(rest, previous, current, view, key);
      assert key !in rest && key in order;
      ShowAppend(view, Arrivals(rest, previous, current), [Arrival(previous, current, key)]);
    }
  }

  function RelistEvents(oldOrder: seq<string>, previous: Items, newOrder: seq<string>, current: Items): seq<Event>
    requires (forall k <- oldOrder :: k in previous) && (forall k <- newOrder :: k in current)
  {
    Deletions(oldOrder, previous, current) + Arrivals(newOrder, previous, current)
  }

  /** What a relist repairs in the copy of a subscriber that missed events: everything except
      objects that neither the store nor the list still has. */
  lemma RelistRepairs(oldOrder: seq<string>, previous: Items, newOrder: seq<string>, current: Items, view: Items,
                      key: string)
    requires Ordered(oldOrder, previous) && Ordered(newOrder, current)
    ensures var shown := ShowAll(view, RelistEvents(oldOrder, previous, newOrder, current));
            Lookup(shown, key) == if key in current then Some(current[key])
                                  else if key in previous then None else Lookup(view, key)
  {
    var deletions, arrivals := Deletions(oldOrder, previous, current), Arrivals(newOrder, previous, current);
    ShowAppend(view, deletions, arrivals);
    DeletionsAnywhere(oldOrder, previous, current, view, key);
    ArrivalsAnywhere(newOrder, previous, current, ShowAll(view, deletions), key);
  }

  lemma SameLookups(a: Items, b: Items)
    requires forall k :: Lookup(a, k) == Lookup(b, k)
    ensures a == b
  {
    assert forall k :: k in a <==> Lookup(a, k).Some?;
    assert forall k :: k in b <==> Lookup(b, k).Some?;
  }

  /** A relist, however much changed, is a sound story that leads exactly to the new contents. */
  lemma RelistShown(oldOrder: seq<string>, previous: Items, newOrder: seq<string>, current: Items)
    requires Ordered(oldOrder, previous) && Ordered(newOrder, current)
    ensures var events := RelistEvents(oldOrder, previous, newOrder, current);
            AllSound(previous, events) && ShowAll(previous, events) == current
  {
    var deletions := Deletions(oldOrder, previous, current);
    var middle := ShowAll(previous, deletions);
    forall key { DeletionsAnywhere(oldOrder, previous, current, previous, key); }
    DeletionsSound(oldOrder, previous, current, previous);
    ArrivalsSound(newOrder, previous, current, middle);
    ShowAppend(previous, deletions, Arrivals(newOrder, previous, current));
    var shown := ShowAll(previous, RelistEvents(oldOrder, previous, newOrder, current));
    forall key
      ensures Lookup(shown, key) == Lookup(current, key)
    {
      RelistRepairs(oldOrder, previous, newOrder, current, previous, key);
    }
    SameLookups(shown, current);
  }

  // ----- watch events -----

  function EventItems(items: Items, kind: EventType, obj: Object): Items {
    match kind
    case ADDED => items[obj.key := obj]
    case MODIFIED => items[obj.key := obj]
    case DELETED => items - {obj.key}
    case _ => items
  }

  function EventFor(items: Items, kind: EventType, obj: Object): seq<Event> {
    match kind
    case ADDED => [Added(obj)]
    case MODIFIED => [Updated(Lookup(items, obj.key), obj)]
    case DELETED => [Deleted(obj)]
    case _ => []
  }

  /** The event tells a subscriber that agrees with the store what the store just did. */
  lemma EventShown(items: Items, kind: EventType, obj: Object, view: Items, key: string)
    ensures Lookup(ShowAll(view, EventFor(items, kind, obj)), key)
            == if key == obj.key && kind !in {BOOKMARK, ERROR} then Lookup(EventItems(items, kind, obj), key)
               else Lookup(view, key)
    ensures ShowAll(items, EventFor(items, kind, obj)) == EventItems(items, kind, obj)
  {
    var events := EventFor(items, kind, obj);
    if events != [] {
      assert ShowAll(view, events) == ShowAll(Show(view, events[0]), [])
             && ShowAll(items, events) == ShowAll(Show(items, events[0]), []);
    }
  }

  class AsyncInformer {
    const store: ConcurrentStore
    var dispatched: seq<Event>

    constructor (store: ConcurrentStore)
      ensures this.store == store && dispatched == []
    {
      this.store := store;
      dispatched := [];
    }

    method DispatchDeletions(order: seq<string>, previous: Items, current: Items)
      requires forall k <- order :: k in previous
      modifies this`dispatched
      ensures dispatched == old(dispatched) + Deletions(order, previous, current)
    {
      for i := 0 to |order|
        invariant dispatched == old(dispatched) + Deletions(order[..i], previous, current)
      {
        var key := order[i];
        assert order[..i + 1][..i] == order[..i];
        if key !in current || previous[key].uid != current[key].uid {
          dispatched := dispatched + [Deleted(previous[key])];
        }
      }
      assert order[..|order|] == order;
    }

    method DispatchArrivals(order: seq<string>, previous: Items, current: Items)
      requires forall k <- order :: k in current
      modifies this`dispatched
      ensures dispatched == old(dispatched) + Arrivals(order, previous, current)
    {
      for i := 0 to |order|
        invariant dispatched == old(dispatched) + Arrivals(order[..i], previous, current)
      {
        var key := order[i];
        assert order[..i + 1][..i] == order[..i];
        if key !in previous || previous[key].uid != current[key].uid {
          dispatched := dispatched + [Added(current[key])];
        } else {
          dispatched := dispatched + [Updated(Some(previous[key]), current[key])];
        }
      }
      assert order[..|order|] == order;
    }

    method DispatchChanges(oldOrder: seq<string>, previous: Items, newOrder: seq<string>, current: Items)
      requires (forall k <- oldOrder :: k in previous) && (forall k <- newOrder :: k in current)
      modifies this`dispatched
      ensures dispatched == old(dispatched) + RelistEvents(oldOrder, previous, newOrder, current)
    {
      DispatchDeletions(oldOrder, previous, current);
      DispatchArrivals(newOrder, previous, current);
      Regroup(old(dispatched), Deletions(oldOrder, previous, current), Arrivals(newOrder, previous, current));
    }

    /** A relist replaces the store, then reports what went and what came (`RelistShown`). */
    method HandleInitialItems(list: seq<Object>)
      requires store.Stored() && DistinctKeys(list) && forall o <- list :: o.key != ""
      modifies this, store
      ensures store.Valid() && store.items == FromList(list) && store.order == OrderOf(list)
              && store.funcs == old(store.funcs)
      ensures (forall k <- old(store.order) :: k in old(store.items)) && (forall k <- store.order :: k in store.items)
      ensures dispatched == old(dispatched) + RelistEvents(old(store.order), old(store.items), store.order, store.items)
    {
      var previous, oldOrder := store.items, store.order;
      OrderOfKeys(list);
      store.Replace(list);
      var current, newOrder := store.items, store.order;
      DispatchChanges(oldOrder, previous, newOrder, current);
    }

    /** One watch event changes the store and is passed on; an unlimited store drops nothing. */
    method HandleWatchEvent(kind: EventType, obj: Object)
      requires store.Valid() && store.maxItems == 0 && obj.key != ""
      modifies this, store
      ensures store.Valid() && store.funcs == old(store.funcs)
      ensures store.items == EventItems(old(store.items), kind, obj)
      ensures dispatched == old(dispatched) + EventFor(old(store.items), kind, obj)
    {
      if kind == ADDED {
        store.Add(obj);
        dispatched := dispatched + [Added(obj)];
      } else if kind == MODIFIED {
        var prior := store.Get(obj.key);
        store.Add(obj);
        dispatched := dispatched + [Updated(prior, obj)];
      } else if kind == DELETED {
        store.Delete(obj);
        dispatched := dispatched + [Deleted(obj)];
      }
    }
  }
}
