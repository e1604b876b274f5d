/** What every run of the cache protocol keeps: the store is the server state at one log position,
    and a subscriber that no cancellation cut off holds what the store holds. */
module CacheSafety {
  import opened Wrappers
  import opened Sequences
  import opened Store
  import opened Informer
  import opened WatchManager
  import opened CacheProtocol

  // ----- one lemma per step that changes the log or the store -----

  lemma WriteAgrees(w: World, e: Entry)
    requires Agreement(w) && Enabled(w, Write(e))
    ensures Agreement(w.(log := w.log + [e]))
  {
    var after := w.log + [e];
    forall i | 0 <= i < |after| ensures EntryOk(after, i) {
      StatePrefix(w.log, e, i);
      assert i < |w.log| ==> EntryOk(w.log, i);
    }
    StatePrefix(w.log, e, w.cache.position);
  }

  lemma OrderStep(items: Items, order: seq<string>, e: Entry, version: nat)
    requires Ordered(order, items) && Accepted(items, version, e) && !e.Other?
    ensures var after := if e.Drop? then Without(order, e.obj.key) else if e.obj.key in items then order
            else order + [e.obj.key];
            Ordered(after, After(items, e))
  {
    if e.Drop? { WithoutElement(order, e.obj.key); }
  }

  /** Delivery: the skipped entries change nothing, so the event applies to the store as it is. */
  lemma DeliverEntry(w: World, i: nat)
    requires Agreement(w) && Relevant(w, i)
    ensures w.cache.items == StateAt(w.log, i) && Accepted(w.cache.items, i + 1, w.log[i])
    ensures StateAt(w.log, i + 1) == After(w.cache.items, w.log[i])
  {
    StateSkips(w.log, w.cache.position, i);
    assert EntryOk(w.log, i);
  }

  lemma StoredReflects(cache: Mirror, after: Items, e: Entry, version: nat)
    requires Ordered(cache.order, cache.items) && Accepted(cache.items, version, e) && !e.Other?
             && after == After(cache.items, e)
    ensures var next := Stored(cache, Kind(cache.items, e), e.obj);
            next.position == version && next.items == after && Ordered(next.order, next.items)
  {
    OrderStep(cache.items, cache.order, e, version);
  }

  lemma DeliverReflects(w: World, i: nat)
    requires Agreement(w) && Relevant(w, i)
    ensures Reflects(Stored(w.cache, Kind(StateAt(w.log, i), w.log[i]), w.log[i].obj), w.log)
    ensures w.log[i].obj.version == i + 1
  {
    DeliverEntry(w, i);
    StoredReflects(w.cache, StateAt(w.log, i + 1), w.log[i], i + 1);
  }

  lemma DeliverAgrees(w: World, i: nat, delivered: nat)
    requires Agreement(w) && w.connected && Relevant(w, i)
    ensures Agreement(StepDeliver(w, i, delivered))
  {
    DeliverReflects(w, i);
    DeliverMoves(w, i, delivered);
  }

  /** What a delivery does besides storing the object. */
  lemma DeliverMoves(w: World, i: nat, delivered: nat)
    requires Relevant(w, i) && w.log[i].obj.version == i + 1
    ensures var after, obj := StepDeliver(w, i, delivered), w.log[i].obj;
            var events := EventFor(w.cache.items, Kind(StateAt(w.log, i), w.log[i]), obj);
            && after.log == w.log && after.floor == w.floor && after.listing == w.listing
            && after.cache == Stored(w.cache, Kind(StateAt(w.log, i), w.log[i]), obj)
            && after.feed == Tell(w.feed, events, delivered)
            && if delivered < |events| then
                 after.manager == w.manager.(version := None) && after.stream.None? && !after.connected
               else
                 after.manager == w.manager.(version := Some(i + 1)) && after.stream == Some(Some(i + 1))
                 && after.connected
  {
  }

  /** One event, told or cut off. */
  lemma Heard(feed: Feed, e: Event, delivered: nat)
    ensures Tell(feed, [e], delivered) ==
            if delivered == 0 then Feed(feed.story, feed.missed + {e.obj.key}, true)
            else Feed(feed.story + [e], feed.missed - {e.obj.key}, feed.cut)
  {
    assert e in [e] && Keys([e]) == {e.obj.key} && Keys([]) == {};
    assert [e][1..] == [] && [e][0..] == [e] && feed.story + [] == feed.story;
    assert Take([e], delivered) == if delivered == 0 then [] else [e];
  }

  lemma TellEntry(feed: Feed, items: Items, e: Entry, version: nat, delivered: nat)
    requires Follows(feed, items) && Accepted(items, version, e) && !e.Other?
    ensures Follows(Tell(feed, EventFor(items, Kind(items, e), e.obj), delivered), After(items, e))
  {
    var events := EventFor(items, Kind(items, e), e.obj);
    assert events == [events[0]];
    Heard(feed, events[0], delivered);
    if delivered > 0 { ToldEntry(feed, items, e, version); }
  }

  lemma ToldEntry(feed: Feed, items: Items, e: Entry, version: nat)
    requires Follows(feed, items) && Accepted(items, version, e) && !e.Other?
    ensures var events := EventFor(items, Kind(items, e), e.obj);
            Follows(Feed(feed.story + events, feed.missed - {e.obj.key}, feed.cut), After(items, e))
  {
    var kind, view := Kind(items, e), ShowAll(map[], feed.story);
    var events := EventFor(items, kind, e.obj);
    ShowAppend(map[], feed.story, events);
    forall k | k !in feed.missed - {e.obj.key} ensures Lookup(ShowAll(view, events), k) == Lookup(After(items, e), k) {
      EventShown(items, kind, e.obj, view, k);
    }
    if !feed.cut { SameLookups(view, items); }
  }

  /** Events about other objects leave a subscriber's copy of an object alone. */
  lemma {:induction false} Untouched(view: Items, events: seq<Event>, key: string)
    requires key !in Keys(events)
    ensures Lookup(ShowAll(view, events), key) == Lookup(view, key)
    decreases |events|
  {
    if events != [] {
      assert events[0] in events && Keys(events[1..]) <= Keys(events);
      Untouched(Show(view, events[0]), events[1..], key);
    }
  }

  lemma {:induction false} DeletionKeys(order: seq<string>, previous: Items, current: Items)
    requires forall k <- order :: k in previous && previous[k].key == k
    ensures Keys(Deletions(order, previous, current)) <= previous.Keys
    ensures forall k <- order :: k !in current ==> k in Keys(Deletions(order, previous, current))
  {
    if order != [] {
      var n := |order| - 1;
      DeletionKeys(order[..n], previous, current);
      var rest := Deletions(order[..n], previous, current);
      var last := Deleted(previous[order[n]]);
      assert forall e :: e in rest + [last] <==> e in rest || e == last;
      assert forall k :: k in Keys(rest + [last]) <==> k in Keys(rest) || k == order[n];
      assert order == order[..n] + [order[n]];
    }
  }

  lemma {:induction false} ArrivalKeys(order: seq<string>, previous: Items, current: Items)
    requires forall k <- order :: k in current && current[k].key == k
    ensures forall k :: k in Keys(Arrivals(order, previous, current)) <==> k in order
  {
    if order != [] {
      var n := |order| - 1;
      ArrivalKeys(order[..n], previous, current);
      var last := Arrival(previous, current, order[n]);
      var rest := Arrivals(order[..n], previous, current);
      assert forall e :: e in rest + [last] <==> e in rest || e == last;
      assert forall k :: k in Keys(rest + [last]) <==> k in Keys(rest) || k == order[n];
      assert order == order[..n] + [order[n]];
    }
  }

  /** A relist speaks of exactly the objects that are listed or were stored. */
  lemma RelistKeys(oldOrder: seq<string>, previous: Items, newOrder: seq<string>, current: Items)
    requires Ordered(oldOrder, previous) && Ordered(newOrder, current)
    ensures Keys(RelistEvents(oldOrder, previous, newOrder, current)) == previous.Keys + current.Keys
  {
    DeletionKeys(oldOrder, previous, current);
    ArrivalKeys(newOrder, previous, current);
    var gone, here := Deletions(oldOrder, previous, current), Arrivals(newOrder, previous, current);
    assert Keys(gone + here) == Keys(gone) + Keys(here) by {
      assert forall e :: e in gone + here <==> e in gone || e in here;
    }
  }

  lemma TellRelist(feed: Feed, oldOrder: seq<string>, previous: Items, newOrder: seq<string>, current: Items,
                   delivered: nat)
    requires Follows(feed, previous) && Ordered(oldOrder, previous) && Ordered(newOrder, current)
    ensures Follows(Tell(feed, RelistEvents(oldOrder, previous, newOrder, current), delivered), current)
  {
    var events, view := RelistEvents(oldOrder, previous, newOrder, current), ShowAll(map[], feed.story);
    var told := Take(events, delivered);
    var rest := events[|told|..];
    assert events == told + rest;
    RelistKeys(oldOrder, previous, newOrder, current);
    ShowAppend(map[], feed.story, told);
    forall k | k !in feed.missed - Keys(told) + Keys(rest)
      ensures Lookup(ShowAll(map[], feed.story + told), k) == Lookup(current, k)
    {
      ShowAppend(view, told, rest);
      Untouched(ShowAll(view, told), rest, k);
      RelistRepairs(oldOrder, previous, newOrder, current, view, k);
      assert k in Keys(told) ==> k in Keys(events);
    }
    if !feed.cut && delivered >= |events| {
      SameLookups(view, previous);
      RelistShown(oldOrder, previous, newOrder, current);
    }
  }

  lemma ListAgrees(w: World, order: seq<string>, delivered: nat)
    requires Agreement(w) && Enabled(w, HandleList(order, delivered))
    ensures Agreement(StepHandleList(w, order, delivered))
  {
  }

  lemma BookmarkAgrees(w: World, version: Option<nat>)
    requires Agreement(w) && Enabled(w, Bookmark(version))
    ensures Agreement(StepBookmark(w, version))
  {
    if version.Some? { StateSkips(w.log, w.cache.position, version.value); }
  }

  lemma QuietAgrees(w: World, c: Choice)
    requires Agreement(w) && Enabled(w, c)
    requires c.Compact? || c.Start? || c.Stop? || c.ServeList? || c.OpenWatch? || c.Connect? || c.Disconnect? || c.Fail?
    ensures Agreement(Step(w, c)) && Step(w, c).cache == w.cache && Step(w, c).log == w.log
  {
  }

  lemma StepAgrees(w: World, c: Choice)
    requires Agreement(w)
    ensures Agreement(Step(w, c)) && Step(w, c).cache.position >= w.cache.position && w.log <= Step(w, c).log
  {
    if Enabled(w, c) {
      match c
      case Write(e) => WriteAgrees(w, e);
      case HandleList(order, delivered) => ListAgrees(w, order, delivered);
      case Deliver(i, delivered) => DeliverAgrees(w, i, delivered); DeliverReflects(w, i);
      case Bookmark(version) => BookmarkAgrees(w, version);
      case _ => QuietAgrees(w, c);
    }
  }

  lemma StepTells(w: World, c: Choice)
    requires Inv(w)
    ensures Subscribed(Step(w, c))
  {
    if Enabled(w, c) {
      match c
      case HandleList(order, delivered) =>
        TellRelist(w.feed, w.cache.order, w.cache.items, order, StateAt(w.log, w.listing.value), delivered);
      case Deliver(i, delivered) =>
        DeliverEntry(w, i);
        TellEntry(w.feed, w.cache.items, w.log[i], i + 1, delivered);
      case _ =>
    }
  }

  lemma StepKeeps(w: World, c: Choice)
    requires Inv(w)
    ensures Inv(Step(w, c)) && Step(w, c).cache.position >= w.cache.position && w.log <= Step(w, c).log
  {
    StepAgrees(w, c);
    StepTells(w, c);
  }

  // ----- runs -----

  lemma Initially()
    ensures Inv(EMPTY)
  {
    assert EMPTY.feed.story == [];
  }

  /** The world a run ends in, whatever was chosen and in whatever order. */
  ghost function Run(w: World, choices: seq<Choice>): World
    requires Inv(w)
    decreases |choices|
  {
    if choices == [] then w
    else
      StepKeeps(w, choices[0]);
      Run(Step(w, choices[0]), choices[1..])
  }

  /** Every run keeps the invariant, and the reflected position never moves backwards. */
  lemma {:induction false} RunKeeps(w: World, choices: seq<Choice>)
    requires Inv(w)
    ensures var after := Run(w, choices); Inv(after) && after.cache.position >= w.cache.position && w.log <= after.log
    decreases |choices|
  {
    if choices != [] {
      StepKeeps(w, choices[0]);
      RunKeeps(Step(w, choices[0]), choices[1..]);
    }
  }

  /** Cache agreement: after any run the store holds what the server held at one position, which
      is the version to resume from whenever one is held, by the manager or by the client. */
  lemma CacheAgreement(choices: seq<Choice>)
    ensures Inv(EMPTY)
    ensures var w := Run(EMPTY, choices);
            && w.cache.position <= |w.log| && w.cache.items == StateAt(w.log, w.cache.position)
            && (w.manager.version.Some? ==> w.manager.version.value == w.cache.position)
            && (w.stream.Some? ==> w.stream.value == Some(w.cache.position))
  {
    Initially();
    RunKeeps(EMPTY, choices);
  }

  /** Subscriber agreement: unless a handover was cancelled, replaying what was dispatched is
      sound at every event and ends in exactly the contents of the store. */
  lemma SubscriberAgreement(choices: seq<Choice>)
    ensures Inv(EMPTY)
    ensures var w := Run(EMPTY, choices);
            !w.feed.cut ==> AllSound(map[], w.feed.story) && ShowAll(map[], w.feed.story) == w.cache.items
  {
    Initially();
    RunKeeps(EMPTY, choices);
    var w := Run(EMPTY, choices);
    if !w.feed.cut { SameLookups(ShowAll(map[], w.feed.story), w.cache.items); }
  }

  // ----- what a relist repairs -----

  ghost predicate CompleteRelist(w: World, order: seq<string>, delivered: nat) {
    && Inv(w) && Enabled(w, HandleList(order, delivered))
    && delivered >= |RelistEvents(w.cache.order, w.cache.items, order, StateAt(w.log, w.listing.value))|
  }

  function View(feed: Feed): Items { ShowAll(map[], feed.story) }

  /** What a complete relist cannot repair: a key is in doubt afterwards exactly when it was
      before and is neither stored nor listed; and the subscriber is right about a key exactly
      when the key is listed or was stored, or the subscriber did not have it anyway. */
  lemma RelistLeaves(w: World, order: seq<string>, delivered: nat, key: string)
    requires CompleteRelist(w, order, delivered)
    ensures var current := StateAt(w.log, w.listing.value);
            var after := Step(w, HandleList(order, delivered));
            && (key in after.feed.missed <==> key in w.feed.missed && key !in current && key !in w.cache.items)
            && (Lookup(View(after.feed), key) == Lookup(after.cache.items, key)
                <==> key in current || key in w.cache.items || key !in View(w.feed))
  {
    var current := StateAt(w.log, w.listing.value);
    var events := RelistEvents(w.cache.order, w.cache.items, order, current);
    assert Take(events, delivered) == events && events[|events|..] == [];
    RelistKeys(w.cache.order, w.cache.items, order, current);
    ShowAppend(map[], w.feed.story, events);
    RelistRepairs(w.cache.order, w.cache.items, order, current, View(w.feed), key);
  }

  /** A complete relist restores agreement exactly when everything the subscriber has is still
      stored or listed. */
  lemma RelistRestores(w: World, order: seq<string>, delivered: nat)
    requires CompleteRelist(w, order, delivered)
    ensures var current := StateAt(w.log, w.listing.value);
            var after := Step(w, HandleList(order, delivered));
            View(after.feed) == after.cache.items
            <==> forall key <- View(w.feed) :: key in current || key in w.cache.items
  {
    var after := Step(w, HandleList(order, delivered));
    forall key { RelistLeaves(w, order, delivered, key); }
    if forall key :: Lookup(View(after.feed), key) == Lookup(after.cache.items, key) {
      SameLookups(View(after.feed), after.cache.items);
    }
  }

  /** The choice cancels the handover of a deletion, the only event about an object that the store
      no longer has. */
  ghost predicate CutsDeletion(w: World, c: Choice)
    requires Inv(w)
  {
    && Enabled(w, c)
    && match c
       case Deliver(i, delivered) => w.log[i].Drop? && delivered == 0
       case HandleList(order, delivered) =>
         var current := StateAt(w.log, w.listing.value);
         var events := RelistEvents(w.cache.order, w.cache.items, order, current);
         exists e <- events[|Take(events, delivered)|..] :: e.obj.key !in current
       case _ => false
  }

  ghost predicate NoDeletionCut(w: World, choices: seq<Choice>)
    requires Inv(w)
    decreases |choices|
  {
    choices == [] ||
    (StepKeeps(w, choices[0]);
     !CutsDeletion(w, choices[0]) && NoDeletionCut(Step(w, choices[0]), choices[1..]))
  }

  /** Whatever subscribers missed is still stored. */
  ghost predicate StillStored(w: World) { w.feed.missed <= w.cache.items.Keys }

  lemma CutRelistStored(w: World, order: seq<string>, delivered: nat)
    requires Inv(w) && StillStored(w) && Enabled(w, HandleList(order, delivered))
    requires !CutsDeletion(w, HandleList(order, delivered))
    ensures StillStored(StepHandleList(w, order, delivered))
  {
    var current := StateAt(w.log, w.listing.value);
    var events := RelistEvents(w.cache.order, w.cache.items, order, current);
    var told := Take(events, delivered);
    var rest := events[|told|..];
    RelistKeys(w.cache.order, w.cache.items, order, current);
    assert events == told + rest;
    forall k <- w.feed.missed ensures k in Keys(told) + Keys(rest) {
      assert k in Keys(events);
      var e :| e in events && e.obj.key == k;
    }
  }

  lemma DeliverStored(w: World, i: nat, delivered: nat)
    requires Inv(w) && StillStored(w) && Enabled(w, Deliver(i, delivered))
    requires !CutsDeletion(w, Deliver(i, delivered))
    ensures StillStored(StepDeliver(w, i, delivered))
  {
    DeliverEntry(w, i);
    var events := EventFor(w.cache.items, Kind(w.cache.items, w.log[i]), w.log[i].obj);
    assert events == [events[0]];
    Heard(w.feed, events[0], delivered);
  }

  lemma StepStored(w: World, c: Choice)
    requires Inv(w) && StillStored(w) && !CutsDeletion(w, c)
    ensures StillStored(Step(w, c))
  {
    if Enabled(w, c) {
      match c
      case HandleList(order, delivered) => CutRelistStored(w, order, delivered);
      case Deliver(i, delivered) => DeliverStored(w, i, delivered);
      case _ =>
    }
  }

  lemma {:induction false} RunStored(w: World, choices: seq<Choice>)
    requires Inv(w) && StillStored(w) && NoDeletionCut(w, choices)
    ensures StillStored(Run(w, choices))
    decreases |choices|
  {
    if choices != [] {
      StepStored(w, choices[0]);
      StepKeeps(w, choices[0]);
      RunStored(Step(w, choices[0]), choices[1..]);
    }
  }

  /** In a run that cancelled the handover of no deletion, every complete relist makes the
      subscriber agree with the store again, whatever else was cancelled before. */
  lemma RelistAgreement(choices: seq<Choice>, order: seq<string>, delivered: nat)
    requires Inv(EMPTY) && NoDeletionCut(EMPTY, choices)
    requires CompleteRelist(Run(EMPTY, choices), order, delivered)
    ensures var after := Step(Run(EMPTY, choices), HandleList(order, delivered));
            after.feed.missed == {} && View(after.feed) == after.cache.items
  {
    RunStored(EMPTY, choices);
    var w := Run(EMPTY, choices);
    forall key { RelistLeaves(w, order, delivered, key); }
    forall key <- View(w.feed) ensures key in w.cache.items {
      if key !in w.feed.missed { assert Lookup(View(w.feed), key) == Lookup(w.cache.items, key); }
    }
    RelistRestores(w, order, delivered);
  }

  // ----- a deletion that is never reported -----

  lemma {:induction false} RunAppend(w: World, choices: seq<Choice>, last: Choice)
    requires Inv(w)
    ensures Inv(Run(w, choices)) && Run(w, choices + [last]) == Step(Run(w, choices), last)
    decreases |choices|
  {
    RunKeeps(w, choices);
    StepKeeps(w, (choices + [last])[0]);
    if choices == [] {
      assert Run(w, [last]) == Run(Step(w, last), []);
    } else {
      assert (choices + [last])[1..] == choices[1..] + [last];
      RunAppend(Step(w, choices[0]), choices[1..], last);
    }
  }

  ghost predicate Reaches(choices: seq<Choice>, w: World) { Inv(EMPTY) && Inv(w) && w == Run(EMPTY, choices) }

  lemma Then(choices: seq<Choice>, w: World, next: Choice, after: World) returns (longer: seq<Choice>)
    requires Reaches(choices, w) && after == Step(w, next)
    ensures Reaches(longer, after)
  {
    longer := choices + [next];
    RunAppend(EMPTY, choices, next);
    StepKeeps(w, next);
  }

  function Quiet(log: seq<Entry>, version: Option<nat>, cache: Mirror, feed: Feed): World {
    World(log, 0, Manager(Running, version), None, None, false, cache, feed)
  }

  function Watching(log: seq<Entry>, cache: Mirror, feed: Feed): World {
    World(log, 0, Manager(Running, Some(cache.position)), None, Some(Some(cache.position)), true, cache, feed)
  }

  lemma Synced() returns (choices: seq<Choice>)
    ensures Reaches(choices, Watching([], Mirror(map[], [], 0), Feed([], {}, false)))
  {
    Initially();
    var none := Mirror(map[], [], 0);
    var unheard := Feed([], {}, false);
    var started := EMPTY.(manager := Manager(Starting, None));
    choices := Then([], EMPTY, Start, started);
    choices := Then(choices, started, ServeList, started.(listing := Some(0)));
    choices := Then(choices, started.(listing := Some(0)), HandleList([], 0), Quiet([], Some(0), none, unheard));
    var open := Quiet([], Some(0), none, unheard).(stream := Some(Some(0)));
    choices := Then(choices, Quiet([], Some(0), none, unheard), OpenWatch, open);
    choices := Then(choices, open, Connect, Watching([], none, unheard));
  }

  lemma Added1(o: Object) returns (choices: seq<Choice>)
    requires o.key != "" && o.version == 1
    ensures Reaches(choices, Watching([Put(o)], Mirror(map[o.key := o], [o.key], 1), Feed([Added(o)], {}, false)))
  {
    var none := Mirror(map[], [], 0);
    var unheard := Feed([], {}, false);
    choices := Synced();
    choices := Then(choices, Watching([], none, unheard), Write(Put(o)), Watching([Put(o)], none, unheard));
    var before := Watching([Put(o)], none, unheard);
    var after := Watching([Put(o)], Mirror(map[o.key := o], [o.key], 1), Feed([Added(o)], {}, false));
    Heard(unheard, Added(o), 1);
    assert Relevant(before, 0) && StateAt([Put(o)], 0) == map[];
    choices := Then(choices, before, Deliver(0, 1), after);
  }

  lemma CutOff(o: Object, gone: Object) returns (choices: seq<Choice>)
    requires o.key != "" && o.version == 1 && gone == o.(version := 2)
    ensures Reaches(choices, Quiet([Put(o), Drop(gone)], None, Mirror(map[], [], 2), Feed([Added(o)], {o.key}, true)))
  {
    var log := [Put(o), Drop(gone)];
    var one, told := Mirror(map[o.key := o], [o.key], 1), Feed([Added(o)], {}, false);
    choices := Added1(o);
    assert StateAt([Put(o)], 1) == map[o.key := o] && StateAt(log, 1) == map[o.key := o];
    var deleting := Watching(log, one, told);
    choices := Then(choices, Watching([Put(o)], one, told), Write(Drop(gone)), deleting);
    Heard(told, Deleted(gone), 0);
    assert Relevant(deleting, 1) && Without([o.key], o.key) == [];
    var cut := Quiet(log, None, Mirror(map[], [], 2), Feed([Added(o)], {o.key}, true));
    assert StepDeliver(deleting, 1, 0) == cut;
    choices := Then(choices, deleting, Deliver(1, 0), cut);
  }

  /** The resync timeout cancels the handler of a deletion after the store forgot the object; the
      relist finds it in neither, and the subscriber keeps it. */
  lemma MissedDeletion(o: Object) returns (choices: seq<Choice>)
    requires o.key != "" && o.version == 1
    ensures Inv(EMPTY)
    ensures var w := Run(EMPTY, choices);
            w.manager.state.Running? && w.cache.items == StateAt(w.log, |w.log|) == map[]
            && ShowAll(map[], w.feed.story) == map[o.key := o]
  {
    var gone := o.(version := 2);
    var log := [Put(o), Drop(gone)];
    assert StateAt(log, 1) == map[o.key := o] by { assert StateAt(log, 0) == map[]; }
    assert StateAt(log, 2) == map[o.key := o] - {o.key} == map[];
    var none, told := Mirror(map[], [], 2), Feed([Added(o)], {o.key}, true);
    var cut := Quiet(log, None, none, told);
    var listing := cut.(listing := Some(2));
    choices := CutOff(o, gone);
    choices := Then(choices, cut, ServeList, listing);
    choices := Then(choices, listing, HandleList([], 0), Quiet(log, Some(2), none, told));
    assert ShowAll(map[], [Added(o)]) == ShowAll(map[o.key := o], []);
  }
}
