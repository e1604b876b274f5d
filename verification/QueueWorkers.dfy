/** Any number of workers on one work queue, interleaved in every possible way: each key is held by
    one worker at a time, nobody sleeps on ready work, no update is lost, and a graceful shutdown
    drains. */
module QueueWorkers {
  import opened Queue

  /** A worker is about to ask for a key, waits for the queue, reconciles a key, or has returned. */
  datatype Worker = AtGet | Blocked | Working(key: Key) | Exited

  datatype World = World(q: Queued, now: real, workers: seq<Worker>)

  /** Anything may call the queue at any time; Fire is a timer, Cancel ends a worker's task. */
  datatype Choice =
    | Tick(duration: real)
    | Request(key: Key)
    | Schedule(key: Key, delay: real)
    | Backoff(key: Key, delay: real)
    | Forget(key: Key)
    | Fire(key: Key)
    | Get(worker: nat)
    | Done(worker: nat)
    | Cancel(worker: nat)
    | Shutdown(immediate: bool)

  function Wake(workers: seq<Worker>): (r: seq<Worker>)
    ensures |r| == |workers|
    ensures forall i :: 0 <= i < |r| ==> r[i] == if workers[i].Blocked? then AtGet else workers[i]
  {
    seq(|workers|, i requires 0 <= i < |workers| => if workers[i].Blocked? then AtGet else workers[i])
  }

  /** Setting the event wakes every waiter. */
  function Next(w: World, q: Queued, workers: seq<Worker>): World {
    World(q, w.now, if q.available then Wake(workers) else workers)
  }

  predicate Enabled(w: World, c: Choice) {
    match c
    case Tick(duration) => duration >= 0.0
    case Request(_) => true
    case Schedule(_, delay) => delay >= 0.0
    case Backoff(_, delay) => delay >= 0.0
    case Forget(_) => true
    case Fire(key) => key in w.q.delayed && w.q.delayed[key] <= w.now
    case Get(i) => i < |w.workers| && w.workers[i].AtGet?
    case Done(i) => i < |w.workers| && w.workers[i].Working? && w.workers[i].key in w.q.processing
    case Cancel(i) => i < |w.workers| && (w.workers[i].Working? ==> w.workers[i].key in w.q.processing)
    case Shutdown(_) => true
  }

  function StepGet(w: World, i: nat): World
    requires i < |w.workers|
  {
    var (q, answer) := OnGet(w.q);
    match answer
    case Got(key) => Next(w, q, w.workers[i := Working(key)])
    case MustWait => Next(w, q, w.workers[i := Blocked])
    case QueueClosed => Next(w, q, w.workers[i := Exited])
  }

  function StepDone(w: World, i: nat, next: Worker): World
    requires i < |w.workers| && w.workers[i].Working? && w.workers[i].key in w.q.processing
  {
    Next(w, OnDone(w.q, w.workers[i].key).value, w.workers[i := next])
  }

  /** The choices that call the queue without being a worker's move. */
  predicate Call(c: Choice) { c.Request? || c.Schedule? || c.Backoff? || c.Forget? || c.Fire? || c.Shutdown? }

  function Called(w: World, c: Choice): Queued
    requires Call(c) && Enabled(w, c)
  {
    match c
    case Request(key) => OnAdd(w.q, key)
    case Schedule(key, delay) => OnAddAfter(w.q, key, delay, w.now)
    case Backoff(key, delay) => OnRetry(w.q, key, delay, w.now)
    case Forget(key) => OnForget(w.q, key)
    case Fire(key) => OnTimer(w.q, key)
    case Shutdown(immediate) => OnShutdown(w.q, immediate)
  }

  function Step(w: World, c: Choice): World {
    if !Enabled(w, c) then w
    else match c
      case Tick(duration) => w.(now := w.now + duration)
      case Get(i) => StepGet(w, i)
      case Done(i) => StepDone(w, i, AtGet)
      case Cancel(i) => if w.workers[i].Working? then StepDone(w, i, Exited) else Next(w, w.q, w.workers[i := Exited])
      case _ => Next(w, Called(w, c), w.workers)
  }

  function Run(w: World, choices: seq<Choice>): World
    decreases |choices|
  {
    if choices == [] then w else Run(Step(w, choices[0]), choices[1..])
  }

  predicate Initial(w: World) { w.q == FRESH && forall i :: 0 <= i < |w.workers| ==> w.workers[i].AtGet? }

  // ----- who holds which key -----

  /** Each of the keys is held by exactly one worker, and no other key by anybody. */
  ghost predicate Held(workers: seq<Worker>, keys: set<Key>) {
    && (forall key :: Working(key) in workers <==> key in keys)
    && (forall i, j :: 0 <= i < j < |workers| && workers[i].Working? ==> workers[i] != workers[j])
  }

  lemma InUpdate(workers: seq<Worker>, i: nat, worker: Worker, wanted: Worker)
    requires i < |workers|
    ensures wanted in workers[i := worker] <==>
            wanted == worker || exists j :: 0 <= j < |workers| && j != i && workers[j] == wanted
  {
    var after := workers[i := worker];
    if j :| 0 <= j < |workers| && j != i && workers[j] == wanted { assert after[j] == wanted; }
    assert after[i] == worker;
  }

  /** A worker without a key takes one that nobody holds, or does something else. */
  lemma HeldTake(workers: seq<Worker>, i: nat, worker: Worker, keys: set<Key>)
    requires Held(workers, keys) && i < |workers| && !workers[i].Working?
    requires worker.Working? ==> worker.key !in keys
    ensures Held(workers[i := worker], if worker.Working? then keys + {worker.key} else keys)
  {
    forall key { InUpdate(workers, i, worker, Working(key)); }
    forall j | 0 <= j < |workers| && workers[j].Working? ensures workers[j].key in keys {
      assert Working(workers[j].key) == workers[j];
    }
  }

  /** A worker lets go of its key. */
  lemma HeldDone(workers: seq<Worker>, i: nat, worker: Worker, keys: set<Key>)
    requires Held(workers, keys) && i < |workers| && workers[i].Working? && !worker.Working?
    ensures workers[i].key in keys && Held(workers[i := worker], keys - {workers[i].key})
  {
    assert Working(workers[i].key) == workers[i];
    forall key { InUpdate(workers, i, worker, Working(key)); }
    forall key | key in keys && key != workers[i].key ensures Working(key) in workers[i := worker] {
      var j :| 0 <= j < |workers| && workers[j] == Working(key);
    }
  }

  lemma HeldWake(workers: seq<Worker>, keys: set<Key>)
    requires Held(workers, keys)
    ensures Held(Wake(workers), keys)
  {
    forall key ensures Working(key) in Wake(workers) <==> Working(key) in workers {
      if Working(key) in workers {
        var j :| 0 <= j < |workers| && workers[j] == Working(key);
        assert Wake(workers)[j] == Working(key);
      }
    }
  }

  /** Each key in flight is held by exactly one worker, and nobody sleeps while the event is set. */
  ghost predicate Inv(w: World) {
    && Consistent(w.q)
    && Held(w.workers, w.q.processing)
    && (w.q.available ==> forall i :: 0 <= i < |w.workers| ==> !w.workers[i].Blocked?)
  }

  lemma NextKeeps(w: World, q: Queued, workers: seq<Worker>)
    requires Consistent(q) && Held(workers, q.processing)
    ensures Inv(Next(w, q, workers))
  {
    HeldWake(workers, q.processing);
  }

  lemma CalledKeeps(w: World, c: Choice)
    requires Consistent(w.q) && Call(c) && Enabled(w, c)
    ensures Consistent(Called(w, c)) && Called(w, c).processing == w.q.processing
  {
    match c
    case Request(key) => AddConsistent(w.q, key);
    case Schedule(key, delay) => AddAfterConsistent(w.q, key, delay, w.now);
    case Backoff(key, delay) => RetryConsistent(w.q, key, delay, w.now);
    case Forget(key) =>
    case Fire(key) => ReleaseConsistent(w.q, key);
    case Shutdown(immediate) => ShutdownConsistent(w.q, immediate);
  }

  lemma GetKeeps(w: World, i: nat)
    requires Inv(w) && Enabled(w, Get(i))
    ensures Inv(StepGet(w, i))
  {
    var (q, answer) := OnGet(w.q);
    GetConsistent(w.q);
    var worker := if answer.Got? then Working(answer.key) else if answer.MustWait? then Blocked else Exited;
    HeldTake(w.workers, i, worker, w.q.processing);
    NextKeeps(w, q, w.workers[i := worker]);
  }

  lemma DoneKeeps(w: World, i: nat, next: Worker)
    requires Inv(w) && Enabled(w, Done(i)) && !next.Working?
    ensures Inv(StepDone(w, i, next))
  {
    var key := w.workers[i].key;
    HeldDone(w.workers, i, next, w.q.processing);
    DoneConsistent(w.q, key);
    NextKeeps(w, OnDone(w.q, key).value, w.workers[i := next]);
  }

  lemma CancelKeeps(w: World, i: nat)
    requires Inv(w) && Enabled(w, Cancel(i))
    ensures Inv(Step(w, Cancel(i)))
  {
    if w.workers[i].Working? {
      DoneKeeps(w, i, Exited);
    } else {
      HeldTake(w.workers, i, Exited, w.q.processing);
      NextKeeps(w, w.q, w.workers[i := Exited]);
    }
  }

  lemma StepSize(w: World, c: Choice)
    ensures |Step(w, c).workers| == |w.workers|
  {
  }

  lemma StepKeeps(w: World, c: Choice)
    requires Inv(w)
    ensures Inv(Step(w, c)) && |Step(w, c).workers| == |w.workers|
  {
    StepSize(w, c);
    if Enabled(w, c) {
      match c
      case Tick(_) =>
      case Get(i) => GetKeeps(w, i);
      case Done(i) => DoneKeeps(w, i, AtGet);
      case Cancel(i) => CancelKeeps(w, i);
      case _ =>
        CalledKeeps(w, c);
        NextKeeps(w, Called(w, c), w.workers);
    }
  }

  lemma {:induction false} RunKeeps(w: World, choices: seq<Choice>)
    requires Inv(w)
    ensures Inv(Run(w, choices)) && |Run(w, choices).workers| == |w.workers|
    decreases |choices|
  {
    if choices != [] {
      StepKeeps(w, choices[0]);
      RunKeeps(Step(w, choices[0]), choices[1..]);
    }
  }

  lemma InitialKeeps(w: World)
    requires Initial(w)
    ensures Inv(w)
  {
    assert Held(w.workers, {});
  }

  // ----- safety of every run -----

  /** Per-key serialisation, and no wakeup is missed: with ready work or after a shutdown nobody
      sleeps. */
  lemma Serialised(start: World, choices: seq<Choice>, i: nat, j: nat)
    requires Initial(start) && i < j < |start.workers|
    ensures var w := Run(start, choices);
            && Consistent(w.q) && |w.workers| == |start.workers|
            && (w.workers[i].Working? && w.workers[j].Working? ==> w.workers[i].key != w.workers[j].key)
            && (w.workers[i].Working? ==> w.workers[i].key in w.q.processing)
            && (w.q.ready != [] || w.q.closed ==> !w.workers[i].Blocked? && !w.workers[j].Blocked?)
  {
    InitialKeeps(start);
    RunKeeps(start, choices);
    var w := Run(start, choices);
    assert w.workers[i].Working? ==> Working(w.workers[i].key) == w.workers[i];
  }

  /** How often a run hands the key to a worker. */
  function Takes(w: World, choices: seq<Choice>, key: Key): nat
    decreases |choices|
  {
    if choices == [] then 0
    else (if TakesNow(w, choices[0], key) then 1 else 0) + Takes(Step(w, choices[0]), choices[1..], key)
  }

  predicate TakesNow(w: World, c: Choice, key: Key) {
    c.Get? && Enabled(w, c) && w.q.ready != [] && w.q.ready[0] == key
  }

  /** The key is wanted, now or at the latest from the deadline on. */
  predicate Due(q: Queued, key: Key, deadline: real) {
    key in q.dirty || (key in q.delayed && q.delayed[key] <= deadline)
  }

  lemma CalledDue(w: World, c: Choice, key: Key, deadline: real)
    requires Consistent(w.q) && Due(w.q, key, deadline) && Call(c) && Enabled(w, c) && c != Shutdown(true)
    requires c.Shutdown? ==> key in w.q.dirty
    ensures Due(Called(w, c), key, deadline) && (key in w.q.dirty ==> key in Called(w, c).dirty)
  {
  }

  lemma StepDue(w: World, c: Choice, key: Key, deadline: real)
    requires Inv(w) && Due(w.q, key, deadline) && c != Shutdown(true)
    requires c.Shutdown? ==> key in w.q.dirty
    ensures Due(Step(w, c).q, key, deadline) || TakesNow(w, c, key)
    ensures key in w.q.dirty ==> key in Step(w, c).q.dirty || TakesNow(w, c, key)
  {
    if Call(c) && Enabled(w, c) { CalledDue(w, c, key, deadline); }
  }

  /** No lost update: a key that is dirty stays dirty until a worker takes it, through every run
      but an immediate shutdown. */
  lemma {:induction false} NoLostUpdate(w: World, choices: seq<Choice>, key: Key)
    requires Inv(w) && key in w.q.dirty && Shutdown(true) !in choices
    ensures key in Run(w, choices).q.dirty || Takes(w, choices, key) > 0
    decreases |choices|
  {
    if choices != [] {
      StepKeeps(w, choices[0]);
      StepDue(w, choices[0], key, 0.0);
      if !TakesNow(w, choices[0], key) { NoLostUpdate(Step(w, choices[0]), choices[1..], key); }
    }
  }

  /** The earliest deadline is kept: until it is taken, a delayed key never moves to a later one. */
  lemma {:induction false} EarliestKept(w: World, choices: seq<Choice>, key: Key, deadline: real)
    requires Inv(w) && Due(w.q, key, deadline) && forall c <- choices :: !c.Shutdown?
    ensures Due(Run(w, choices).q, key, deadline) || Takes(w, choices, key) > 0
    decreases |choices|
  {
    if choices != [] {
      StepKeeps(w, choices[0]);
      StepDue(w, choices[0], key, deadline);
      if !TakesNow(w, choices[0], key) { EarliestKept(Step(w, choices[0]), choices[1..], key, deadline); }
    }
  }

  /** An add while the queue is open is followed by a take of that key or leaves it dirty. */
  lemma AddIsServed(w: World, key: Key, choices: seq<Choice>)
    requires Inv(w) && !w.q.closed && Shutdown(true) !in choices
    ensures var after := Step(w, Request(key));
            key in Run(after, choices).q.dirty || Takes(after, choices, key) > 0
  {
    AddConsistent(w.q, key);
    StepKeeps(w, Request(key));
    NoLostUpdate(Step(w, Request(key)), choices, key);
  }
}
