/** One informer against a server: an append-only log of versions with a compaction floor,
    a watch that may be cut anywhere, and a store that must keep agreeing with the log.

    A version is a position in the log. A run is any sequence of choices; a choice that is not
    enabled changes nothing. */
module CacheProtocol {
  import opened Wrappers
  import opened Sequences
  import opened Store
  import opened Informer
  import opened WatchManager

  /** Other: a version that does not concern the watched resources. */
  datatype Entry = Put(obj: Object) | Drop(obj: Object) | Other

  function After(items: Items, e: Entry): Items {
    match e
    case Put(o) => items[o.key := o]
    case Drop(o) => items - {o.key}
    case Other => items
  }

  /** What the server stores after the first n versions. */
  function StateAt(log: seq<Entry>, n: nat): Items
    requires n <= |log|
  {
    if n == 0 then map[] else After(StateAt(log, n - 1), log[n - 1])
  }

  /** The server gives every object a key and its version, and keeps a UID until deletion. */
  predicate Accepted(items: Items, version: nat, e: Entry) {
    match e
    case Put(o) => o.key != "" && o.version == version && (o.key in items ==> items[o.key].uid == o.uid)
    case Drop(o) => o.key != "" && o.version == version && o.key in items && items[o.key].uid == o.uid
    case Other => true
  }

  function Kind(items: Items, e: Entry): EventType
    requires !e.Other?
  {
    if e.Drop? then DELETED else if e.obj.key in items then MODIFIED else ADDED
  }

  /** What the informer stores; `position` is the log position it reflects, which no step reads. */
  datatype Mirror = Mirror(items: Items, order: seq<string>, position: nat)

  /** What a subscriber received, and the keys of events cut off before they reached it. */
  datatype Feed = Feed(story: seq<Event>, missed: set<string>, cut: bool)

  datatype World = World(
    log: seq<Entry>,
    floor: nat,
    manager: Manager,
    listing: Option<nat>,
    stream: Option<Option<nat>>,
    connected: bool,
    cache: Mirror,
    feed: Feed)
  {
    predicate Active() { manager.state.Starting? || manager.state.Running? }
    function Cursor(): nat requires stream.Some? && stream.value.Some? { stream.value.value }
  }

  const EMPTY := World([], 0, Manager(Stopped, None), None, None, false, Mirror(map[], [], 0), Feed([], {}, false))

  datatype Choice =
    | Write(entry: Entry)
    | Compact(upTo: nat)
    | Start
    | Stop
    | ServeList
    | HandleList(order: seq<string>, delivered: nat)
    | OpenWatch
    | Connect
    | Deliver(i: nat, delivered: nat)
    | Bookmark(version: Option<nat>)
    | Disconnect
    | Fail(error: Error)

  // ----- steps -----

  function Keys(events: seq<Event>): set<string> { set e | e in events :: e.obj.key }

  function Take(events: seq<Event>, n: nat): seq<Event> { if n < |events| then events[..n] else events }

  /** Handing events to subscribers; a cancelled handover delivers only the first ones. */
  function Tell(feed: Feed, events: seq<Event>, delivered: nat): Feed {
    var told := Take(events, delivered);
    Feed(feed.story + told, feed.missed - Keys(told) + Keys(events[|told|..]), feed.cut || |told| < |events|)
  }

  predicate Relevant(w: World, i: nat) {
    && w.stream.Some? && w.stream.value.Some?
    && w.Cursor() <= i < |w.log| && !w.log[i].Other?
    && forall j :: w.Cursor() <= j < i ==> w.log[j].Other?
  }

  ghost predicate Enabled(w: World, c: Choice) {
    match c
    case Write(e) => Accepted(StateAt(w.log, |w.log|), |w.log| + 1, e)
    case Compact(n) => w.floor <= n <= |w.log|
    case Start => true
    case Stop => true
    case ServeList => w.Active() && w.manager.version.None? && w.listing.None? && w.stream.None?
    case HandleList(order, _) => w.listing.Some? && w.listing.value <= |w.log|
      && Ordered(order, StateAt(w.log, w.listing.value))
    case OpenWatch => w.Active() && w.manager.version.Some? && w.listing.None? && w.stream.None?
    case Connect => w.stream.Some? && !w.connected
    case Deliver(i, _) => w.connected && Relevant(w, i)
    case Bookmark(version) =>
      && w.connected && w.stream.Some? && w.stream.value.Some?
      && (version.Some? ==> w.Cursor() <= version.value <= |w.log|
                            && forall j :: w.Cursor() <= j < version.value ==> w.log[j].Other?)
    case Disconnect => w.connected
    case Fail(_) => w.stream.Some? || w.listing.Some?
  }

  function Close(w: World): World { w.(stream := None, connected := false) }

  ghost function StepHandleList(w: World, order: seq<string>, delivered: nat): World
    requires Enabled(w, HandleList(order, delivered)) && forall k <- w.cache.order :: k in w.cache.items
  {
    var n := w.listing.value;
    var current := StateAt(w.log, n);
    var events := RelistEvents(w.cache.order, w.cache.items, order, current);
    var listed := OnListed(w.manager, n);
    // Only stopping cancels a relist.
    w.(manager := if delivered < |events| then OnStop(listed) else listed, listing := None,
       cache := Mirror(current, order, n), feed := Tell(w.feed, events, delivered))
  }

  function StepConnect(w: World): World
    requires w.stream.Some?
  {
    var code := if w.stream.value.Some? && w.stream.value.value < w.floor then 410 else 200;
    var (cursor, next) := OnStatus(w.stream.value, true, code);
    match next
    case Connected => w.(stream := Some(cursor), connected := true)
    case Raise(error) => Close(w).(manager := OnEnd(w.manager, error))
    case _ => Close(w)
  }

  function Stored(cache: Mirror, kind: EventType, obj: Object): Mirror {
    var order := if kind == DELETED then Without(cache.order, obj.key)
                 else if obj.key in cache.items then cache.order else cache.order + [obj.key];
    Mirror(EventItems(cache.items, kind, obj), order, obj.version)
  }

  function StepDeliver(w: World, i: nat, delivered: nat): World
    requires Relevant(w, i)
  {
    var kind, obj := Kind(StateAt(w.log, i), w.log[i]), w.log[i].obj;
    var (cursor, _) := OnLine(w.stream.value, true, EventLine(kind, obj));
    var events := EventFor(w.cache.items, kind, obj);
    var manager := OnEvent(w.manager, Some(obj.version));
    // The resync timeout cancels a handler and then forces a relist.
    var cancelled := delivered < |events|;
    w.(manager := if cancelled then OnEnd(manager, TimedOut) else manager,
       stream := if cancelled then None else Some(cursor), connected := !cancelled,
       cache := Stored(w.cache, kind, obj), feed := Tell(w.feed, events, delivered))
  }

  function StepBookmark(w: World, version: Option<nat>): World
    requires w.stream.Some?
  {
    var (cursor, _) := OnLine(w.stream.value, true, BookmarkLine(version));
    w.(manager := OnEvent(w.manager, version), stream := Some(cursor),
       cache := w.cache.(position := if version.Some? then version.value else w.cache.position))
  }

  /** The result of a choice; `w.cache.order` lists stored keys in every world that keeps `Inv`. */
  ghost function Step(w: World, c: Choice): World
    requires forall k <- w.cache.order :: k in w.cache.items
  {
    if !Enabled(w, c) then w
    else match c
      case Write(e) => w.(log := w.log + [e])
      case Compact(n) => w.(floor := n)
      case Start => w.(manager := OnStart(w.manager))
      case Stop => Close(w).(manager := OnStop(w.manager), listing := None)
      case ServeList => w.(listing := Some(|w.log|))
      case HandleList(order, delivered) => StepHandleList(w, order, delivered)
      case OpenWatch => w.(stream := Some(w.manager.version))
      case Connect => StepConnect(w)
      case Deliver(i, delivered) => StepDeliver(w, i, delivered)
      case Bookmark(version) => StepBookmark(w, version)
      case Disconnect => w.(connected := false)
      case Fail(error) => Close(w).(manager := OnEnd(w.manager, error), listing := None)
  }

  // ----- the invariant -----

  ghost predicate EntryOk(log: seq<Entry>, i: nat) requires i < |log| {
    Accepted(StateAt(log, i), i + 1, log[i])
  }

  ghost predicate LogOk(log: seq<Entry>) { forall i :: 0 <= i < |log| ==> EntryOk(log, i) }

  /** The store is the server state at one position. */
  ghost predicate Reflects(cache: Mirror, log: seq<Entry>) {
    cache.position <= |log| && cache.items == StateAt(log, cache.position) && Ordered(cache.order, cache.items)
  }

  ghost predicate Agreement(w: World) {
    && LogOk(w.log) && w.floor <= |w.log| && Reflects(w.cache, w.log)
    && (w.manager.version.Some? ==> w.manager.version.value == w.cache.position)
    && (w.stream.Some? ==> w.listing.None? && w.stream.value == Some(w.cache.position))
    && (w.listing.Some? ==> w.cache.position <= w.listing.value <= |w.log|)
    && (w.connected ==> w.stream.Some?)
  }

  /** Subscribers hold what the store holds, except for keys of events cut off before them. */
  ghost predicate Follows(feed: Feed, items: Items) {
    && (forall k :: k !in feed.missed ==> Lookup(ShowAll(map[], feed.story), k) == Lookup(items, k))
    && (!feed.cut ==> feed.missed == {} && AllSound(map[], feed.story))
  }

  ghost predicate Subscribed(w: World) { Follows(w.feed, w.cache.items) }

  ghost predicate Inv(w: World) { Agreement(w) && Subscribed(w) }

  lemma {:induction false} StatePrefix(log: seq<Entry>, e: Entry, n: nat)
    requires n <= |log|
    ensures StateAt(log + [e], n) == StateAt(log, n)
  {
    if n > 0 { StatePrefix(log, e, n - 1); }
  }

  lemma {:induction false} StateSkips(log: seq<Entry>, from: nat, to: nat)
    requires from <= to <= |log| && forall j :: from <= j < to ==> log[j].Other?
    ensures StateAt(log, to) == StateAt(log, from)
  {
    if from < to { StateSkips(log, from, to - 1); }
  }

  lemma {:induction false} StateKeys(log: seq<Entry>, n: nat)
    requires LogOk(log) && n <= |log|
    ensures forall k <- StateAt(log, n) :: k != "" && StateAt(log, n)[k].key == k
  {
    if n > 0 {
      StateKeys(log, n - 1);
      assert EntryOk(log, n - 1);
    }
  }
}
