/** Merging log streams: some producers share the list of sources and put into one bounded queue
    that one consumer reads, interleaved in every possible way. */
module FanIn {
  import opened Sequences

  /** What one log request yields before it ends, and whether it ends by failing. */
  datatype Source = Source(records: seq<string>, fails: bool)

  datatype Item = Record(source: nat, text: string) | Failure(source: nat) | Sentinel

  /** Between requests, reading one, about to put its sentinel, done. */
  datatype Producer = Idle | Reading(source: nat) | Ending | Finished

  datatype Consumer = Consuming | Complete | Raised(source: nat)

  /** `next` is the shared iterator; `sent` counts the records put for each source. */
  datatype World = World(
    sources: seq<Source>,
    next: nat,
    sent: seq<nat>,
    producers: seq<Producer>,
    queue: seq<Item>,
    remaining: nat,
    delivered: seq<Item>,
    consumer: Consumer)

  const CAPACITY := 128

  function Start(sources: seq<Source>, maxStreams: nat): World {
    var n := if maxStreams < |sources| then maxStreams else |sources|;
    World(sources, 0, seq(|sources|, _ => 0), seq(n, _ => Idle), [], n, [], if n == 0 then Complete else Consuming)
  }

  datatype Choice = Produce(i: nat) | Consume

  function Put(w: World, i: nat, item: Item, p: Producer): World
    requires i < |w.producers|
  {
    w.(queue := w.queue + [item], producers := w.producers[i := p])
  }

  /** The next item that a producer puts, if that is what it does next. */
  predicate Puts(w: World, i: nat)
    requires i < |w.producers|
  {
    match w.producers[i]
    case Reading(s) => s < |w.sources| == |w.sent| && (w.sent[s] < |w.sources[s].records| || w.sources[s].fails)
    case Ending => true
    case _ => false
  }

  predicate Enabled(w: World, c: Choice) {
    && w.consumer.Consuming?
    && match c
       case Produce(i) => i < |w.producers| && !w.producers[i].Finished? && (Puts(w, i) ==> |w.queue| < CAPACITY)
       case Consume => w.queue != [] && w.remaining > 0
  }

  function StepProduce(w: World, i: nat): World
    requires i < |w.producers|
  {
    match w.producers[i]
    case Idle =>
      if w.next < |w.sources| then w.(next := w.next + 1, producers := w.producers[i := Reading(w.next)])
      else w.(producers := w.producers[i := Ending])
    case Reading(s) =>
      if !(s < |w.sources| == |w.sent|) then w
      else if w.sent[s] < |w.sources[s].records| then
        Put(w, i, Record(s, w.sources[s].records[w.sent[s]]), Reading(s)).(sent := w.sent[s := w.sent[s] + 1])
      else if w.sources[s].fails then Put(w, i, Failure(s), Ending)
      else w.(producers := w.producers[i := Idle])
    case Ending => Put(w, i, Sentinel, Finished)
    case Finished => w
  }

  function StepConsume(w: World): World
    requires w.queue != [] && w.remaining > 0
  {
    var item, rest := w.queue[0], w.(queue := w.queue[1..]);
    match item
    case Record(_, _) => rest.(delivered := w.delivered + [item])
    case Failure(s) => rest.(consumer := Raised(s))
    case Sentinel => rest.(remaining := w.remaining - 1, consumer := if w.remaining == 1 then Complete else Consuming)
  }

  function Step(w: World, c: Choice): World {
    if !Enabled(w, c) then w else match c case Produce(i) => StepProduce(w, i) case Consume => StepConsume(w)
  }

  function Run(w: World, choices: seq<Choice>): World
    decreases |choices|
  {
    if choices == [] then w else Run(Step(w, choices[0]), choices[1..])
  }

  // ----- counting -----

  /** The records of one source, in order. */
  function Of(items: seq<Item>, s: nat): seq<string> {
    if items == [] then []
    else
      var last := items[|items| - 1];
      Of(items[..|items| - 1], s) + (if last.Record? && last.source == s then [last.text] else [])
  }

  lemma {:induction false} OfAppend(a: seq<Item>, b: seq<Item>, s: nat)
    ensures Of(a + b, s) == Of(a, s) + Of(b, s)
  {
    if b == [] {
      assert a + b == a;
    } else {
      assert (a + b)[..|a + b| - 1] == a + b[..|b| - 1];
      OfAppend(a, b[..|b| - 1], s);
    }
  }

  function Ends(item: Item): nat { if item.Sentinel? then 1 else 0 }

  function Sentinels(items: seq<Item>): nat { Sum(items, Ends) }

  function One(p: Producer): nat { if p.Finished? then 0 else 1 }

  function Alive(producers: seq<Producer>): nat { Sum(producers, One) }

  // ----- the invariant -----

  predicate Shape(w: World) {
    && |w.sent| == |w.sources| && w.next <= |w.sources| && |w.queue| <= CAPACITY && |w.producers| <= |w.sources|
    && (w.sources == [] <==> w.producers == [])
    && (forall s :: 0 <= s < |w.sent| ==> w.sent[s] <= |w.sources[s].records|)
    && (forall i :: 0 <= i < |w.producers| && w.producers[i].Reading? ==> w.producers[i].source < w.next)
    && (forall a :: 0 <= a < |w.queue| && w.queue[a].Failure? ==>
         w.queue[a].source < |w.sources| && w.sources[w.queue[a].source].fails)
    && (w.consumer.Raised? ==> w.consumer.source < |w.sources| && w.sources[w.consumer.source].fails)
  }

  /** What is delivered and buffered of a source is what was sent of it, in order. */
  predicate InOrder(w: World) {
    |w.sent| == |w.sources| && forall s :: 0 <= s < |w.sent| ==>
      w.sent[s] <= |w.sources[s].records| && Of(w.delivered, s) + Of(w.queue, s) == w.sources[s].records[..w.sent[s]]
  }

  predicate ReadBy(w: World, s: nat) { Reading(s) in w.producers }

  /** A source that was taken is being read or was sent completely. */
  predicate Taken(w: World) {
    |w.sent| == |w.sources| && w.next <= |w.sources|
    && forall s :: 0 <= s < w.next ==> ReadBy(w, s) || w.sent[s] == |w.sources[s].records|
  }

  /** One sentinel is still to come from each producer that is not finished. */
  predicate Counted(w: World) { w.consumer.Consuming? ==> Sentinels(w.queue) + Alive(w.producers) == w.remaining }

  predicate Announced(w: World, s: nat) { exists a :: 0 <= a < |w.queue| && w.queue[a] == Failure(s) }

  /** Nothing stands behind the last sentinel. */
  predicate BeforeLast(w: World) { forall a :: 0 <= a < |w.queue| ==> Sentinels(w.queue[..a]) < w.remaining }

  predicate FailuresKept(w: World) {
    !w.consumer.Raised? ==>
      w.next <= |w.sources| && forall s :: 0 <= s < w.next && w.sources[s].fails ==> ReadBy(w, s) || Announced(w, s)
  }

  /** A producer stops only when the list is exhausted or its source failed. */
  predicate StopsLate(w: World) {
    w.next <= |w.sources| &&
    ((exists i :: 0 <= i < |w.producers| && (w.producers[i].Ending? || w.producers[i].Finished?)) ==>
       w.next == |w.sources| || exists s :: 0 <= s < w.next && w.sources[s].fails)
  }

  /** Completion means that every sentinel arrived. */
  predicate Ended(w: World) {
    && (w.consumer.Complete? ==> w.remaining == 0 && Alive(w.producers) == 0)
    && (w.consumer.Consuming? ==> w.remaining > 0)
  }

  predicate Inv(w: World) {
    Shape(w) && InOrder(w) && Taken(w) && Counted(w) && BeforeLast(w) && FailuresKept(w) && StopsLate(w) && Ended(w)
  }

  lemma StartKeeps(sources: seq<Source>, maxStreams: nat)
    requires maxStreams > 0
    ensures Inv(Start(sources, maxStreams))
  {
    var w := Start(sources, maxStreams);
    AllIdle(w.producers);
    assert forall s :: 0 <= s < |sources| ==> Of(w.delivered, s) + Of(w.queue, s) == sources[s].records[..0];
  }

  lemma {:induction false} AllIdle(producers: seq<Producer>)
    requires forall i :: 0 <= i < |producers| ==> producers[i].Idle?
    ensures Alive(producers) == |producers|
  {
    if producers != [] { AllIdle(producers[..|producers| - 1]); }
  }

  lemma StillReads(producers: seq<Producer>, i: nat, p: Producer, s: nat)
    requires i < |producers| && Reading(s) in producers && producers[i] != Reading(s)
    ensures Reading(s) in producers[i := p]
  {
    var j :| 0 <= j < |producers| && producers[j] == Reading(s);
    assert producers[i := p][j] == Reading(s);
  }

  lemma NowReads(producers: seq<Producer>, i: nat, s: nat)
    requires i < |producers|
    ensures Reading(s) in producers[i := Reading(s)]
  {
    assert producers[i := Reading(s)][i] == Reading(s);
  }

  lemma PutBeforeLast(w: World, v: World, item: Item)
    requires BeforeLast(w) && v.queue == w.queue + [item] && v.remaining == w.remaining
    requires Sentinels(w.queue) < w.remaining
    ensures BeforeLast(v)
  {
    forall a | 0 <= a < |v.queue| ensures Sentinels(v.queue[..a]) < v.remaining {
      assert v.queue[..a] == w.queue[..a];
      assert a == |w.queue| ==> v.queue[..a] == w.queue;
    }
  }

  /** A producer that only changes what it does next. */
  lemma TurnKeeps(w: World, i: nat)
    requires Inv(w) && Enabled(w, Produce(i)) && !Puts(w, i)
    ensures Inv(StepProduce(w, i))
  {
    var v := StepProduce(w, i);
    SumUpdate(w.producers, i, v.producers[i], One);
    forall s | 0 <= s < v.next ensures ReadBy(v, s) || v.sent[s] == |v.sources[s].records| {
      if s == w.next { NowReads(w.producers, i, s); }
      else if ReadBy(w, s) && w.producers[i] != Reading(s) { StillReads(w.producers, i, v.producers[i], s); }
    }
    forall s | 0 <= s < v.next && v.sources[s].fails ensures ReadBy(v, s) || Announced(v, s) {
      if s == w.next { NowReads(w.producers, i, s); }
      else if ReadBy(w, s) && w.producers[i] != Reading(s) { StillReads(w.producers, i, v.producers[i], s); }
    }
  }

  /** One more record of one source is one more record sent. */
  lemma OneMore(source: Source, sent: nat, before: seq<string>, queued: seq<string>)
    requires sent < |source.records| && before + queued == source.records[..sent]
    ensures before + (queued + [source.records[sent]]) == source.records[..sent + 1]
  {
    Regroup(before, queued, [source.records[sent]]);
  }

  lemma RecordOrder(w: World, v: World, s: nat)
    requires InOrder(w) && s < |w.sources| && w.sent[s] < |w.sources[s].records|
    requires v.queue == w.queue + [Record(s, w.sources[s].records[w.sent[s]])]
    requires v.delivered == w.delivered && v.sent == w.sent[s := w.sent[s] + 1] && v.sources == w.sources
    ensures InOrder(v)
  {
    var item := Record(s, w.sources[s].records[w.sent[s]]);
    forall t | 0 <= t < |v.sent| ensures Of(v.delivered, t) + Of(v.queue, t) == v.sources[t].records[..v.sent[t]] {
      OfAppend(w.queue, [item], t);
      if t == s { OneMore(w.sources[s], w.sent[s], Of(w.delivered, s), Of(w.queue, s)); }
      else { assert Of(w.queue, t) + [] == Of(w.queue, t); }
    }
  }

  lemma StillAnnounced(w: World, v: World, t: nat)
    requires Announced(w, t) && w.queue <= v.queue
    ensures Announced(v, t)
  {
    var a :| 0 <= a < |w.queue| && w.queue[a] == Failure(t);
    assert v.queue[a] == Failure(t);
  }

  lemma RecordFailures(w: World, v: World)
    requires FailuresKept(w) && w.queue <= v.queue && v.producers == w.producers && v.sources == w.sources
    requires v.next == w.next && v.consumer == w.consumer
    ensures FailuresKept(v)
  {
    if !v.consumer.Raised? {
      forall t | 0 <= t < v.next && v.sources[t].fails ensures ReadBy(v, t) || Announced(v, t) {
        if !ReadBy(w, t) { StillAnnounced(w, v, t); }
      }
    }
  }

  lemma RecordTaken(w: World, v: World, s: nat)
    requires Taken(w) && ReadBy(w, s) && s < |w.sent| && v.sent == w.sent[s := w.sent[s] + 1]
    requires v.producers == w.producers && v.sources == w.sources && v.next == w.next
    ensures Taken(v)
  {
    forall t | 0 <= t < v.next ensures ReadBy(v, t) || v.sent[t] == |v.sources[t].records| {
      assert ReadBy(w, t) || w.sent[t] == |w.sources[t].records|;
    }
  }

  lemma RecordKeeps(w: World, i: nat)
    requires Inv(w) && Enabled(w, Produce(i)) && w.producers[i].Reading?
             && w.sent[w.producers[i].source] < |w.sources[w.producers[i].source].records|
    ensures Inv(StepProduce(w, i))
  {
    var v, s := StepProduce(w, i), w.producers[i].source;
    var item := Record(s, w.sources[s].records[w.sent[s]]);
    assert v.producers == w.producers && w.producers[i] in w.producers;
    SumUpdate(w.producers, i, w.producers[i], One);
    PutBeforeLast(w, v, item);
    RecordOrder(w, v, s);
    RecordTaken(w, v, s);
    RecordFailures(w, v);
  }

  lemma FailureKeeps(w: World, i: nat)
    requires Inv(w) && Enabled(w, Produce(i)) && w.producers[i].Reading?
    requires w.sent[w.producers[i].source] == |w.sources[w.producers[i].source].records|
             && w.sources[w.producers[i].source].fails
    ensures Inv(StepProduce(w, i))
  {
    var v, s := StepProduce(w, i), w.producers[i].source;
    SumUpdate(w.producers, i, Ending, One);
    PutBeforeLast(w, v, Failure(s));
    ItemElsewhere(w, v, Failure(s));
    assert v.queue[|w.queue|] == Failure(s);
    forall t | 0 <= t < v.next
      ensures (ReadBy(v, t) || v.sent[t] == |v.sources[t].records|)
              && (v.sources[t].fails ==> ReadBy(v, t) || Announced(v, t))
    {
      if ReadBy(w, t) && t != s { StillReads(w.producers, i, Ending, t); }
    }
  }

  /** Items other than records leave the order alone. */
  lemma ItemElsewhere(w: World, v: World, item: Item)
    requires InOrder(w) && !item.Record? && v.queue == w.queue + [item] && v.delivered == w.delivered
             && v.sent == w.sent && v.sources == w.sources
    ensures InOrder(v)
  {
    forall t | 0 <= t < |v.sent| ensures Of(v.delivered, t) + Of(v.queue, t) == v.sources[t].records[..v.sent[t]] {
      OfAppend(w.queue, [item], t);
      assert Of(w.queue, t) + [] == Of(w.queue, t);
    }
  }

  lemma SentinelKeeps(w: World, i: nat)
    requires Inv(w) && Enabled(w, Produce(i)) && w.producers[i].Ending?
    ensures Inv(StepProduce(w, i))
  {
    var v := StepProduce(w, i);
    SumUpdate(w.producers, i, Finished, One);
    PutBeforeLast(w, v, Sentinel);
    ItemElsewhere(w, v, Sentinel);
    forall t | 0 <= t < v.next
      ensures (ReadBy(v, t) || v.sent[t] == |v.sources[t].records|)
              && (v.sources[t].fails ==> ReadBy(v, t) || Announced(v, t))
    {
      if ReadBy(w, t) { StillReads(w.producers, i, Finished, t); }
    }
  }

  lemma PopCount(queue: seq<Item>, a: nat)
    requires a < |queue|
    ensures Sentinels(queue[..a + 1]) == Ends(queue[0]) + Sentinels(queue[1..][..a])
  {
    var first := queue[..a + 1];
    SumFirst(first, Ends);
    assert first[0] == queue[0] && first[1..] == queue[1..][..a];
  }

  lemma PopBeforeLast(w: World, v: World)
    requires BeforeLast(w) && w.queue != [] && v.queue == w.queue[1..]
    requires v.remaining == w.remaining - (if w.queue[0].Sentinel? then 1 else 0)
    ensures BeforeLast(v)
  {
    forall a | 0 <= a < |v.queue| ensures Sentinels(v.queue[..a]) < v.remaining {
      PopCount(w.queue, a);
      assert Sentinels(w.queue[..a + 1]) < w.remaining;
    }
  }

  lemma PopOrder(w: World, v: World)
    requires InOrder(w) && w.queue != [] && v.queue == w.queue[1..] && v.sent == w.sent && v.sources == w.sources
    requires v.delivered == w.delivered + (if w.queue[0].Record? then [w.queue[0]] else [])
    ensures InOrder(v)
  {
    var moved := if w.queue[0].Record? then [w.queue[0]] else [];
    assert w.queue == [w.queue[0]] + v.queue;
    forall t | 0 <= t < |v.sent| ensures Of(v.delivered, t) + Of(v.queue, t) == v.sources[t].records[..v.sent[t]] {
      PopOf(w.delivered, moved, [w.queue[0]], v.queue, t);
    }
  }

  /** Moving the head of the queue to what is delivered keeps the records of each source. */
  lemma PopOf(delivered: seq<Item>, moved: seq<Item>, head: seq<Item>, rest: seq<Item>, t: nat)
    requires Of(moved, t) == Of(head, t)
    ensures Of(delivered + moved, t) + Of(rest, t) == Of(delivered, t) + Of(head + rest, t)
  {
    OfAppend(delivered, moved, t);
    OfAppend(head, rest, t);
    Regroup(Of(delivered, t), Of(head, t), Of(rest, t));
  }

  lemma PopFailures(w: World, v: World)
    requires FailuresKept(w) && !w.consumer.Raised? && w.queue != [] && v.queue == w.queue[1..]
    requires v.producers == w.producers && v.sources == w.sources && v.next == w.next
    requires w.queue[0].Failure? ==> v.consumer.Raised?
    ensures FailuresKept(v)
  {
    forall t | 0 <= t < v.next && v.sources[t].fails && !v.consumer.Raised? ensures ReadBy(v, t) || Announced(v, t) {
      if !ReadBy(w, t) {
        var a :| 0 <= a < |w.queue| && w.queue[a] == Failure(t);
        assert v.queue[a - 1] == Failure(t);
      }
    }
  }

  lemma ConsumeKeeps(w: World)
    requires Inv(w) && Enabled(w, Consume)
    ensures Inv(StepConsume(w))
  {
    var v := StepConsume(w);
    SumFirst(w.queue, Ends);
    PopBeforeLast(w, v);
    PopOrder(w, v);
    PopFailures(w, v);
    assert forall t :: 0 <= t < v.next ==> ReadBy(v, t) == ReadBy(w, t);
  }

  lemma StepKeeps(w: World, c: Choice)
    requires Inv(w)
    ensures Inv(Step(w, c))
  {
    if Enabled(w, c) {
      match c
      case Consume => ConsumeKeeps(w);
      case Produce(i) =>
        if !Puts(w, i) { TurnKeeps(w, i); }
        else if w.producers[i].Ending? { SentinelKeeps(w, i); }
        else if w.sent[w.producers[i].source] < |w.sources[w.producers[i].source].records| { RecordKeeps(w, i); }
        else { FailureKeeps(w, i); }
    }
  }

  lemma {:induction false} RunKeeps(w: World, choices: seq<Choice>)
    requires Inv(w)
    ensures Inv(Run(w, choices))
    decreases |choices|
  {
    if choices != [] {
      StepKeeps(w, choices[0]);
      RunKeeps(Step(w, choices[0]), choices[1..]);
    }
  }

  lemma {:induction false} RunSources(w: World, choices: seq<Choice>)
    ensures Run(w, choices).sources == w.sources
    decreases |choices|
  {
    if choices != [] { RunSources(Step(w, choices[0]), choices[1..]); }
  }

  // ----- every run -----

  /** Whatever the schedule, at most 128 items are buffered and each source arrives in order. */
  lemma RunInOrder(sources: seq<Source>, maxStreams: nat, choices: seq<Choice>, s: nat)
    requires maxStreams > 0 && s < |sources|
    ensures var w := Run(Start(sources, maxStreams), choices);
            |w.queue| <= 128 && Of(w.delivered, s) <= sources[s].records
  {
    StartKeeps(sources, maxStreams);
    RunKeeps(Start(sources, maxStreams), choices);
    RunSources(Start(sources, maxStreams), choices);
    var w := Run(Start(sources, maxStreams), choices);
    assert Of(w.delivered, s) + Of(w.queue, s) == sources[s].records[..w.sent[s]];
  }

  lemma {:induction false} NobodyAlive(producers: seq<Producer>, i: nat)
    requires Alive(producers) == 0 && i < |producers|
    ensures producers[i].Finished?
  {
    SumUpdate(producers, i, Idle, One);
  }

  lemma HeadCounts(w: World)
    requires BeforeLast(w) && w.queue != []
    ensures w.remaining > 0
  {
    assert Sentinels(w.queue[..0]) < w.remaining;
  }

  lemma CompleteHasAll(w: World)
    requires Inv(w) && w.consumer.Complete?
    ensures forall s :: 0 <= s < |w.sources| ==> !w.sources[s].fails && Of(w.delivered, s) == w.sources[s].records
  {
    if w.queue != [] { HeadCounts(w); }
    forall s | 0 <= s < w.next ensures !ReadBy(w, s) && !Announced(w, s) && !w.sources[s].fails {
      forall i | 0 <= i < |w.producers| ensures w.producers[i] != Reading(s) { NobodyAlive(w.producers, i); }
    }
    if w.producers != [] { NobodyAlive(w.producers, 0); }
  }

  // ----- every schedule comes to an end -----

  function Weight(p: Producer): nat { match p case Reading(_) => 4 case Idle => 3 case Ending => 2 case Finished => 0 }

  function Count(n: nat): nat { n }

  function Length(source: Source): nat { |source.records| }

  /** The steps that are left before nothing can move any more. */
  function Left(w: World): int {
    2 * (|w.sources| - w.next) + 2 * (Sum(w.sources, Length) - Sum(w.sent, Count)) + |w.queue|
    + Sum(w.producers, Weight)
  }

  /** Every step uses up one. */
  lemma StepUses(w: World, c: Choice)
    requires Inv(w) && Enabled(w, c)
    ensures Left(Step(w, c)) == Left(w) - 1
  {
    if c.Produce? { ProduceUses(w, c.i); }
  }

  lemma ProduceUses(w: World, i: nat)
    requires Shape(w) && i < |w.producers| && !w.producers[i].Finished?
    ensures Left(StepProduce(w, i)) == Left(w) - 1
  {
    var v := StepProduce(w, i);
    SumUpdate(w.producers, i, v.producers[i], Weight);
    assert v.producers == w.producers[i := v.producers[i]] && v.sources == w.sources;
    if w.producers[i].Reading? && w.sent[w.producers[i].source] < |w.sources[w.producers[i].source].records| {
      SumUpdate(w.sent, w.producers[i].source, w.sent[w.producers[i].source] + 1, Count);
    } else {
      assert v.sent == w.sent;
    }
  }

  lemma LeftIsNat(w: World)
    requires Inv(w)
    ensures Left(w) >= 0
  {
    SumAtMost(w.sent, Count, w.sources, Length);
  }

  /** While the consumer waits for records somebody can move: there is no deadlock. */
  lemma SomebodyMoves(w: World) returns (c: Choice)
    requires Inv(w) && w.consumer.Consuming?
    ensures Enabled(w, c)
  {
    if w.queue != [] {
      c := Consume;
    } else {
      var i := AliveSomewhere(w.producers);
      c := Produce(i);
    }
  }

  lemma {:induction false} AliveSomewhere(producers: seq<Producer>) returns (i: nat)
    requires Alive(producers) > 0
    ensures i < |producers| && !producers[i].Finished?
  {
    var n := |producers| - 1;
    if producers[n].Finished? { i := AliveSomewhere(producers[..n]); } else { i := n; }
  }

  ghost predicate Stuck(w: World) { forall c :: !Enabled(w, c) }

  /** A schedule that always chooses something possible makes no more than the given steps. */
  lemma {:induction false} RunEnds(w: World, choices: seq<Choice>)
    requires Inv(w) && Moving(w, choices)
    ensures |choices| == Left(w) - Left(Run(w, choices)) <= Left(w)
    decreases |choices|
  {
    RunKeeps(w, choices);
    LeftIsNat(Run(w, choices));
    if choices != [] {
      StepUses(w, choices[0]);
      StepKeeps(w, choices[0]);
      RunEnds(Step(w, choices[0]), choices[1..]);
    }
  }

  predicate Moving(w: World, choices: seq<Choice>)
    decreases |choices|
  {
    choices == [] || (Enabled(w, choices[0]) && Moving(Step(w, choices[0]), choices[1..]))
  }

  /** Completeness of the fan-in. A schedule that can go no further has ended, normally if and only
      if no source fails, and then every record of every source was delivered once and in order. */
  lemma FanInComplete(sources: seq<Source>, maxStreams: nat, choices: seq<Choice>)
    requires maxStreams > 0 && Stuck(Run(Start(sources, maxStreams), choices))
    ensures var w := Run(Start(sources, maxStreams), choices);
            && (w.consumer.Complete? <==> forall s :: 0 <= s < |sources| ==> !sources[s].fails)
            && (w.consumer.Complete? ==> forall s :: 0 <= s < |sources| ==> Of(w.delivered, s) == sources[s].records)
            && (!w.consumer.Complete? ==>
                 w.consumer.Raised? && w.consumer.source < |sources| && sources[w.consumer.source].fails)
  {
    StartKeeps(sources, maxStreams);
    RunKeeps(Start(sources, maxStreams), choices);
    RunSources(Start(sources, maxStreams), choices);
    var w := Run(Start(sources, maxStreams), choices);
    if w.consumer.Consuming? {
      var c := SomebodyMoves(w);
      assert false;
    }
    if w.consumer.Complete? { CompleteHasAll(w); }
  }
}
