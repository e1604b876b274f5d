/** The cache can always catch up: by a relist from every reachable world, and by its watch
    wherever the server still has the history. */
module CacheProgress {
  import opened Wrappers
  import opened Sequences
  import opened Store
  import opened Informer
  import opened WatchManager
  import opened CacheProtocol
  import opened CacheSafety

  ghost predicate Current(w: World) { w.cache.items == StateAt(w.log, |w.log|) }

  // ----- by a relist -----

  lemma {:induction false} ListKeys(keys: set<string>) returns (order: seq<string>)
    ensures NoRepeats(order) && forall k :: k in order <==> k in keys
    decreases |keys|
  {
    order := [];
    if keys != {} {
      var k :| k in keys;
      var rest := ListKeys(keys - {k});
      AppendNew(rest, k);
      order := rest + [k];
    }
  }

  /** Nobody takes part but the informer itself and the server that answers it. */
  predicate Own(c: Choice) { !c.Write? && !c.Compact? && !c.Fail? && !c.Disconnect? }

  lemma RunThree(w: World, a: Choice, b: Choice, c: Choice)
    requires Inv(w)
    ensures Inv(Step(w, a)) && Inv(Step(Step(w, a), b))
    ensures Run(w, [a, b, c]) == Step(Step(Step(w, a), b), c)
  {
    RunAppend(w, [], a);
    RunAppend(w, [a], b);
    RunAppend(w, [a, b], c);
    assert [a] + [b] == [a, b] && [a, b] + [c] == [a, b, c];
  }

  /** Stopped and started again, from whatever world, the informer has its list served. */
  lemma Listing(w: World) returns (choices: seq<Choice>)
    requires Inv(w)
    ensures forall c <- choices :: Own(c)
    ensures var listing := Run(w, choices);
            && Inv(listing) && listing.log == w.log && listing.floor == w.floor && listing.cache == w.cache
            && listing.manager == Manager(Starting, None) && listing.listing == Some(|w.log|) && listing.stream.None?
  {
    choices := [Stop, Start, ServeList];
    RunThree(w, Stop, Start, ServeList);
    StepKeeps(w, Stop);
    StepKeeps(Step(w, Stop), Start);
    StepKeeps(Step(Step(w, Stop), Start), ServeList);
  }

  /** A list of everything, handed over completely. */
  lemma Handled(w: World, order: seq<string>, n: nat)
    requires Inv(w) && w.manager == Manager(Starting, None) && w.listing == Some(|w.log|) && w.stream.None?
    requires Ordered(order, StateAt(w.log, |w.log|))
    requires n == |RelistEvents(w.cache.order, w.cache.items, order, StateAt(w.log, |w.log|))|
    ensures var after := Step(w, HandleList(order, n));
            && Inv(after) && after.log == w.log && after.floor == w.floor && Current(after)
            && after.manager == Manager(Running, Some(|w.log|)) && after.listing.None? && after.stream.None?
  {
    StepKeeps(w, HandleList(order, n));
  }

  /** And then it is running and current. */
  lemma Relisted(w: World) returns (choices: seq<Choice>)
    requires Inv(w)
    ensures forall c <- choices :: Own(c)
    ensures var end := Run(w, choices);
            && Inv(end) && end.log == w.log && end.floor == w.floor && Current(end)
            && end.manager == Manager(Running, Some(|w.log|)) && end.listing.None? && end.stream.None?
  {
    var order := ListKeys(StateAt(w.log, |w.log|).Keys);
    var n := |RelistEvents(w.cache.order, w.cache.items, order, StateAt(w.log, |w.log|))|;
    var before := Listing(w);
    StateKeys(w.log, |w.log|);
    Handled(Run(w, before), order, n);
    RunAppend(w, before, HandleList(order, n));
    choices := before + [HandleList(order, n)];
  }

  // ----- by the watch -----

  /** The next version that concerns the watched resources, if there is one. */
  lemma {:induction false} NextRelevant(log: seq<Entry>, from: nat) returns (next: Option<nat>)
    requires from <= |log|
    ensures next.Some? ==>
              from <= next.value < |log| && !log[next.value].Other?
              && forall j :: from <= j < next.value ==> log[j].Other?
    ensures next.None? ==> forall j :: from <= j < |log| ==> log[j].Other?
    decreases |log| - from
  {
    if from == |log| { next := None; }
    else if !log[from].Other? { next := Some(from); }
    else { next := NextRelevant(log, from + 1); }
  }

  lemma OneEvent(w: World, i: nat)
    requires Inv(w) && Relevant(w, i)
    ensures |EventFor(w.cache.items, Kind(StateAt(w.log, i), w.log[i]), w.log[i].obj)| == 1
    ensures w.log[i].obj.version == i + 1
  {
    DeliverEntry(w, i);
  }

  lemma Told(feed: Feed, events: seq<Event>)
    requires |events| == 1
    ensures Tell(feed, events, 1).cut == feed.cut
  {
    assert events == [events[0]];
    Heard(feed, events[0], 1);
  }

  /** A delivered event moves the store, the stream and the manager behind it. */
  lemma Delivered(w: World, i: nat)
    requires Inv(w) && w.connected && w.manager.state.Running? && Relevant(w, i)
    ensures var after := Step(w, Deliver(i, 1));
            && Inv(after) && after.connected && after.manager == Manager(Running, Some(i + 1))
            && after.cache.position == i + 1 && after.log == w.log && after.floor == w.floor
            && after.feed.cut == w.feed.cut
  {
    StepKeeps(w, Deliver(i, 1));
    OneEvent(w, i);
    DeliverMoves(w, i, 1);
    Told(w.feed, EventFor(w.cache.items, Kind(StateAt(w.log, i), w.log[i]), w.log[i].obj));
    assert Step(w, Deliver(i, 1)) == StepDeliver(w, i, 1);
  }

  /** A connected stream brings the store up to date, one event after the other. */
  lemma {:induction false} Streamed(w: World) returns (choices: seq<Choice>)
    requires Inv(w) && w.connected && w.manager.state.Running?
    ensures forall c <- choices :: c.Deliver?
    ensures var end := Run(w, choices);
            Inv(end) && end.log == w.log && Current(end) && end.manager.state.Running? && end.feed.cut == w.feed.cut
    decreases |w.log| - w.cache.position
  {
    var next := NextRelevant(w.log, w.cache.position);
    if next.None? {
      StateSkips(w.log, w.cache.position, |w.log|);
      choices := [];
    } else {
      Delivered(w, next.value);
      var rest := Streamed(Step(w, Deliver(next.value, 1)));
      choices := [Deliver(next.value, 1)] + rest;
    }
  }

  /** From a version that the server still has, the watch connects and catches up, and an
      undisturbed subscriber with it. */
  lemma CatchesUp(w: World) returns (choices: seq<Choice>)
    requires Inv(w) && w.manager.state.Running? && w.listing.None? && w.stream.None?
    requires w.manager.version.Some? && w.floor <= w.manager.version.value
    ensures forall c <- choices :: c.OpenWatch? || c.Connect? || c.Deliver?
    ensures var end := Run(w, choices);
            && Inv(end) && end.log == w.log && Current(end) && end.manager.state.Running?
            && (!w.feed.cut ==> View(end.feed) == StateAt(w.log, |w.log|))
  {
    Connects(w);
    var rest := Streamed(Step(Step(w, OpenWatch), Connect));
    choices := [OpenWatch, Connect] + rest;
    RunOn(w, OpenWatch, Connect, rest);
    if !w.feed.cut { Followed(Run(w, choices)); }
  }

  lemma RunOn(w: World, a: Choice, b: Choice, rest: seq<Choice>)
    requires Inv(w)
    ensures Inv(Step(w, a)) && Inv(Step(Step(w, a), b))
    ensures Run(w, [a, b] + rest) == Run(Step(Step(w, a), b), rest)
  {
    StepKeeps(w, a);
    StepKeeps(Step(w, a), b);
    var choices := [a, b] + rest;
    assert choices[1..] == [b] + rest && choices[1..][1..] == rest;
    assert Run(w, choices) == Run(Step(w, a), choices[1..]);
  }

  lemma Followed(w: World)
    requires Inv(w) && !w.feed.cut
    ensures View(w.feed) == w.cache.items
  {
    SameLookups(View(w.feed), w.cache.items);
  }

  lemma Connects(w: World)
    requires Inv(w) && w.manager.state.Running? && w.listing.None? && w.stream.None?
    requires w.manager.version.Some? && w.floor <= w.manager.version.value
    ensures Inv(Step(w, OpenWatch)) && Inv(Step(Step(w, OpenWatch), Connect))
    ensures var connected := Step(Step(w, OpenWatch), Connect);
            && connected.connected && connected.manager == w.manager && connected.log == w.log
            && connected.feed == w.feed
  {
    StepKeeps(w, OpenWatch);
    StepKeeps(Step(w, OpenWatch), Connect);
  }

  /** So whatever happened before, the informer can be running and current again. */
  lemma AlwaysRecovers(choices: seq<Choice>) returns (more: seq<Choice>)
    ensures Inv(EMPTY) && Inv(Run(EMPTY, choices))
    ensures forall c <- more :: Own(c)
    ensures var end := Run(Run(EMPTY, choices), more); Current(end) && end.manager.state.Running?
  {
    Initially();
    RunKeeps(EMPTY, choices);
    more := Relisted(Run(EMPTY, choices));
  }
}
